/** The single browser slot of backend/app/api/internal.py as a protocol: any number of requests
    run `headless_verify`, interleaved at its awaits. */
module HeadlessSlot {
  import opened Common

  datatype Outcome = NotFound | Busy | Answered | Failed | TimedOut

  datatype Phase = Waiting | Running | Finished(outcome: Outcome)

  /** Free permits of the semaphore, and where each request that has arrived stands. */
  datatype Slot = Slot(free: nat, phases: map<nat, Phase>)

  /** The atomic steps between awaits. A request that finds its site unknown finishes at once; a
      known one waits for the permit, and either gets it or gives up; a running one ends with a
      result, an exception or the timeout, and its `finally` releases the permit. */
  datatype Step =
    | Arrive(id: nat, known: bool)
    | Acquire(id: nat)
    | GiveUp(id: nat)
    | End(id: nat, outcome: Outcome)

  const INITIAL := Slot(1, map[])

  predicate At(s: Slot, id: nat, phase: Phase) {
    id in s.phases && s.phases[id] == phase
  }

  predicate Enabled(s: Slot, step: Step) {
    match step
    case Arrive(id, _) => id !in s.phases
    case Acquire(id) => At(s, id, Waiting) && s.free > 0
    case GiveUp(id) => At(s, id, Waiting)
    case End(id, outcome) => At(s, id, Running) && outcome in {Answered, Failed, TimedOut}
  }

  function Next(s: Slot, step: Step): Slot
    requires Enabled(s, step)
  {
    match step
    case Arrive(id, known) => s.(phases := s.phases[id := if known then Waiting else Finished(NotFound)])
    case Acquire(id) => Slot(s.free - 1, s.phases[id := Running])
    case GiveUp(id) => s.(phases := s.phases[id := Finished(Busy)])
    case End(id, outcome) => Slot(s.free + 1, s.phases[id := Finished(outcome)])
  }

  predicate Possible(s: Slot, steps: seq<Step>)
    decreases |steps|
  {
    steps != [] ==> Enabled(s, steps[0]) && Possible(Next(s, steps[0]), steps[1..])
  }

  function Run(s: Slot, steps: seq<Step>): Slot
    requires Possible(s, steps)
    decreases |steps|
  {
    if steps == [] then s else Run(Next(s, steps[0]), steps[1..])
  }

  function Browsers(s: Slot): set<nat> {
    set id | id in s.phases && s.phases[id] == Running
  }

  lemma {:induction false} PermitConservedFrom(s: Slot, steps: seq<Step>)
    requires Possible(s, steps) && s.free + |Browsers(s)| == 1
    ensures var t := Run(s, steps); t.free + |Browsers(t)| == 1
    decreases |steps|
  {
    if steps != [] {
      var step := steps[0];
      var t := Next(s, step);
      match step {
        case Arrive(id, _) => assert Browsers(t) == Browsers(s);
        case Acquire(id) => assert Browsers(t) == Browsers(s) + {id};
        case GiveUp(id) => assert Browsers(t) == Browsers(s);
        case End(id, _) => assert Browsers(t) == Browsers(s) - {id};
      }
      PermitConservedFrom(t, steps[1..]);
    }
  }

  /** Main result: over every interleaving of any number of requests, free permits and running
      browsers always add up to one. */
  lemma PermitConserved(steps: seq<Step>)
    requires Possible(INITIAL, steps)
    ensures var t := Run(INITIAL, steps); t.free + |Browsers(t)| == 1
  {
    assert Browsers(INITIAL) == {};
    PermitConservedFrom(INITIAL, steps);
  }

  /** Two browsers never run at once, and the permit is free exactly when none does. */
  lemma OneBrowser(steps: seq<Step>, a: nat, b: nat)
    requires Possible(INITIAL, steps)
    requires At(Run(INITIAL, steps), a, Running) && At(Run(INITIAL, steps), b, Running)
    ensures a == b && Run(INITIAL, steps).free == 0
  {
    PermitConserved(steps);
    var running := Browsers(Run(INITIAL, steps));
    assert a in running && b in running;
    assert |running - {a}| == |running| - 1;
  }

  // ---------------------------------------------------------------- who releases

  function Acquisitions(steps: seq<Step>, id: nat): nat {
    if steps == [] then 0 else (if steps[0] == Acquire(id) then 1 else 0) + Acquisitions(steps[1..], id)
  }

  function Releases(steps: seq<Step>, id: nat): nat {
    if steps == [] then 0 else (if steps[0].End? && steps[0].id == id then 1 else 0) + Releases(steps[1..], id)
  }

  /** How often a request has acquired and released, read off where it stands. */
  predicate Accounts(s: Slot, id: nat, acquired: nat, released: nat) {
    if id !in s.phases then acquired == 0 && released == 0
    else match s.phases[id]
      case Waiting => acquired == 0 && released == 0
      case Running => acquired == 1 && released == 0
      case Finished(NotFound) => acquired == 0 && released == 0
      case Finished(Busy) => acquired == 0 && released == 0
      case Finished(_) => acquired == 1 && released == 1
  }

  lemma {:induction false} AccountsKept(s: Slot, steps: seq<Step>, id: nat, acquired: nat, released: nat)
    requires Possible(s, steps) && Accounts(s, id, acquired, released)
    ensures Accounts(Run(s, steps), id, acquired + Acquisitions(steps, id), released + Releases(steps, id))
    decreases |steps|
  {
    if steps != [] {
      var a := if steps[0] == Acquire(id) then 1 else 0;
      var r := if steps[0].End? && steps[0].id == id then 1 else 0;
      AccountsKept(Next(s, steps[0]), steps[1..], id, acquired + a, released + r);
    }
  }

  /** Main result: requests for unknown sites and busy ones never touch the permit; a request
      that ran releases it exactly once, whether it ended in a result, a failure or a timeout. */
  lemma ReleasedExactlyOnce(steps: seq<Step>, id: nat)
    requires Possible(INITIAL, steps)
    ensures Accounts(Run(INITIAL, steps), id, Acquisitions(steps, id), Releases(steps, id))
  {
    AccountsKept(INITIAL, steps, id, 0, 0);
  }

  /** No request is left behind: with no browser running, any waiting request can acquire. */
  lemma SlotIsNeverLost(steps: seq<Step>, id: nat)
    requires Possible(INITIAL, steps)
    requires At(Run(INITIAL, steps), id, Waiting) && Browsers(Run(INITIAL, steps)) == {}
    ensures Enabled(Run(INITIAL, steps), Acquire(id))
  {
    PermitConserved(steps);
  }

  // ---------------------------------------------------------------- what becomes of a request

  /** Where a request stands, in terms of the steps taken. */
  ghost predicate Story(s: Slot, steps: seq<Step>, id: nat) {
    && (id in s.phases <==> Arrive(id, true) in steps || Arrive(id, false) in steps)
    && (At(s, id, Finished(NotFound)) <==> Arrive(id, false) in steps)
    && (At(s, id, Finished(Busy)) <==> GiveUp(id) in steps)
    && (forall o | o in {Answered, Failed, TimedOut} :: At(s, id, Finished(o)) <==> End(id, o) in steps)
    && End(id, NotFound) !in steps && End(id, Busy) !in steps
    && (At(s, id, Running) <==> Acquire(id) in steps && !Ended(steps, id))
    && (Ended(steps, id) ==> Acquire(id) in steps)
    && (At(s, id, Waiting) <==> Arrive(id, true) in steps && Acquire(id) !in steps && GiveUp(id) !in steps)
    && (Acquire(id) in steps || GiveUp(id) in steps ==> Arrive(id, true) in steps)
    && !(Arrive(id, true) in steps && Arrive(id, false) in steps)
    && !(Acquire(id) in steps && GiveUp(id) in steps)
  }

  predicate Ended(steps: seq<Step>, id: nat) {
    End(id, Answered) in steps || End(id, Failed) in steps || End(id, TimedOut) in steps
  }

  lemma {:induction false} RunOfAppend(s: Slot, steps: seq<Step>, step: Step)
    requires Possible(s, steps + [step])
    ensures Possible(s, steps) && Enabled(Run(s, steps), step)
    ensures Run(s, steps + [step]) == Next(Run(s, steps), step)
    decreases |steps|
  {
    if steps == [] {
      assert [] + [step] == [step] && [step][1..] == [];
      assert Possible(s, [step]);
    } else {
      assert (steps + [step])[1..] == steps[1..] + [step] && (steps + [step])[0] == steps[0];
      RunOfAppend(Next(s, steps[0]), steps[1..], step);
    }
  }

  lemma {:induction false} StoryOfRun(steps: seq<Step>, id: nat)
    requires Possible(INITIAL, steps)
    ensures Story(Run(INITIAL, steps), steps, id)
    decreases |steps|
  {
    if steps != [] {
      var before, step := Init(steps), Last(steps);
      assert steps == before + [step];
      RunOfAppend(INITIAL, before, step);
      StoryOfRun(before, id);
      NextStory(Run(INITIAL, before), before, step, steps, id);
    }
  }

  lemma NextStory(s: Slot, before: seq<Step>, step: Step, steps: seq<Step>, id: nat)
    requires Story(s, before, id) && Enabled(s, step) && steps == before + [step]
    ensures Story(Next(s, step), steps, id)
  {
    assert forall x :: x in steps <==> x in before || x == step;
  }

  /** Main result: what becomes of a request is decided by its own steps. One for an unknown site is
      refused at once and takes no further step. One for a known site never is; it is busy exactly
      if it gave up waiting, runs exactly from its acquisition to its end, and finishes with the
      outcome it ended with. */
  lemma OutcomeFollowsSteps(steps: seq<Step>, id: nat)
    requires Possible(INITIAL, steps)
    ensures var s := Run(INITIAL, steps);
            && (Arrive(id, false) in steps ==>
                  && At(s, id, Finished(NotFound))
                  && Acquire(id) !in steps && GiveUp(id) !in steps && forall o :: End(id, o) !in steps)
            && (Arrive(id, true) in steps ==>
                  && id in s.phases && !At(s, id, Finished(NotFound))
                  && (At(s, id, Finished(Busy)) <==> GiveUp(id) in steps)
                  && (At(s, id, Running) <==> Acquire(id) in steps && forall o :: End(id, o) !in steps)
                  && (At(s, id, Waiting) <==> Acquire(id) !in steps && GiveUp(id) !in steps)
                  && forall o | o != Busy :: At(s, id, Finished(o)) <==> End(id, o) in steps)
            && (id in s.phases ==> Arrive(id, true) in steps || Arrive(id, false) in steps)
  {
    StoryOfRun(steps, id);
    forall o | End(id, o) in steps ensures Ended(steps, id) {
      match o
      case NotFound =>
      case Busy =>
      case Answered =>
      case Failed =>
      case TimedOut =>
    }
    if Arrive(id, true) in steps {
      forall o | o != Busy ensures At(Run(INITIAL, steps), id, Finished(o)) <==> End(id, o) in steps {
        match o
        case NotFound =>
        case Answered =>
        case Failed =>
        case TimedOut =>
      }
    }
  }

  // ---------------------------------------------------------------- the shared object

  /** The module-level semaphore with its callers' positions; one method per step. */
  class HeadlessSemaphore {
    var free: nat
    var phases: map<nat, Phase>

    ghost function View(): Slot
      reads this
    {
      Slot(free, phases)
    }

    constructor ()
      ensures View() == INITIAL
    {
      free, phases := 1, map[];
    }

    method Arrival(id: nat, known: bool)
      requires Enabled(View(), Arrive(id, known))
      modifies this
      ensures View() == Next(old(View()), Arrive(id, known))
      ensures At(View(), id, if known then Waiting else Finished(NotFound))
    {
      if !known {
        phases := phases[id := Finished(NotFound)];
        return;
      }
      phases := phases[id := Waiting];
    }

    method TryAcquire(id: nat, waitExpired: bool) returns (acquired: bool)
      requires At(View(), id, Waiting)
      modifies this
      ensures acquired <==> old(free) > 0 && !waitExpired
      ensures acquired ==> View() == Next(old(View()), Acquire(id))
      ensures !acquired && waitExpired ==> View() == Next(old(View()), GiveUp(id))
      ensures !acquired && !waitExpired ==> View() == old(View())
    {
      acquired := free > 0 && !waitExpired;
      if acquired {
        free := free - 1;
        phases := phases[id := Running];
      } else if waitExpired {
        phases := phases[id := Finished(Busy)];
      }
    }

    method Finish(id: nat, outcome: Outcome)
      requires Enabled(View(), End(id, outcome))
      modifies this
      ensures View() == Next(old(View()), End(id, outcome))
    {
      phases := phases[id := Finished(outcome)];
      free := free + 1;
    }
  }
}
