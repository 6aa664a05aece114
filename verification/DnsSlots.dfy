/** The eight resolver slots: which callers and lookup threads hold them, over every interleaving. */
module DnsSlots {
  const SLOTS: nat := 8

  /** One _resolve call: queued for a slot, holding it before its thread starts, waiting for the answer, or gone. */
  datatype Caller = Queued | Holding | Waiting | Gone

  /** Its lookup thread: the answer is posted first and the slot released after. */
  datatype Lookup = NotStarted | Running | Posted | Released | Failed

  datatype Call = Call(caller: Caller, lookup: Lookup)

  datatype State = State(free: nat, calls: seq<Call>)

  datatype Step =
    | Arrive
    | Acquire(call: nat)
    | QueueTimeout(call: nat)
    | Start(call: nat)
    | StartFails(call: nat)
    | Post(call: nat)
    | Release(call: nat)
    | Answer(call: nat)
    | AnswerTimeout(call: nat)

  const INITIAL := State(SLOTS, [])

  /** What happens to the call that a step names, and how many slots it returns (or takes). */
  function Changed(c: Call, step: Step, free: nat): (Call, int) {
    match step
    case Acquire(_) => if c.caller.Queued? && free > 0 then (c.(caller := Holding), -1) else (c, 0)
    case QueueTimeout(_) => if c.caller.Queued? then (c.(caller := Gone), 0) else (c, 0)
    case Start(_) => if c.caller.Holding? then (Call(Waiting, Running), 0) else (c, 0)
    case StartFails(_) => if c.caller.Holding? then (Call(Gone, Failed), 0) else (c, 0)
    case Post(_) => if c.lookup.Running? then (c.(lookup := Posted), 0) else (c, 0)
    case Release(_) => if c.lookup.Posted? then (c.(lookup := Released), 1) else (c, 0)
    case Answer(_) => if c.caller.Waiting? && (c.lookup.Posted? || c.lookup.Released?) then (c.(caller := Gone), 0) else (c, 0)
    case AnswerTimeout(_) => if c.caller.Waiting? then (c.(caller := Gone), 0) else (c, 0)
    case Arrive => (c, 0)
  }

  /** One atomic step; a step that is not enabled changes nothing. */
  function Next(s: State, step: Step): State {
    if step.Arrive? then s.(calls := s.calls + [Call(Queued, NotStarted)])
    else if step.call >= |s.calls| then s
    else
      var (c, back) := Changed(s.calls[step.call], step, s.free);
      State(s.free + back, s.calls[step.call := c])
  }

  function Run(s: State, steps: seq<Step>): State
    decreases steps
  {
    if steps == [] then s else Run(Next(s, steps[0]), steps[1..])
  }

  // ---------------------------------------------------------------------------

  predicate Outstanding(c: Call) {
    c.caller.Holding? || c.lookup.Running? || c.lookup.Posted?
  }

  /** How many calls hold a slot, and how many lost theirs because their thread never started. */
  function Held(calls: seq<Call>): nat {
    if calls == [] then 0 else (if Outstanding(calls[0]) then 1 else 0) + Held(calls[1..])
  }

  function Lost(calls: seq<Call>): nat {
    if calls == [] then 0 else (if calls[0].lookup.Failed? then 1 else 0) + Lost(calls[1..])
  }

  /** A caller waits exactly while or after its thread runs; a thread runs only for a caller that held a slot. */
  predicate CallOk(c: Call) {
    && (c.caller.Queued? || c.caller.Holding? ==> c.lookup.NotStarted?)
    && (c.caller.Waiting? ==> c.lookup.Running? || c.lookup.Posted? || c.lookup.Released?)
  }

  predicate Inv(s: State) {
    && (forall i | 0 <= i < |s.calls| :: CallOk(s.calls[i]))
    && s.free + Held(s.calls) + Lost(s.calls) == SLOTS
  }

  lemma {:induction false} CountUpdate(calls: seq<Call>, i: nat, c: Call)
    requires i < |calls|
    ensures Held(calls[i := c]) == Held(calls) - (if Outstanding(calls[i]) then 1 else 0) + (if Outstanding(c) then 1 else 0)
    ensures Lost(calls[i := c]) == Lost(calls) - (if calls[i].lookup.Failed? then 1 else 0) + (if c.lookup.Failed? then 1 else 0)
  {
    var after := calls[i := c];
    if i == 0 {
      assert after[1..] == calls[1..];
    } else {
      assert after[1..] == calls[1..][i - 1 := c];
      CountUpdate(calls[1..], i - 1, c);
    }
  }

  lemma {:induction false} CountArrival(calls: seq<Call>, c: Call)
    requires !Outstanding(c) && !c.lookup.Failed?
    ensures Held(calls + [c]) == Held(calls) && Lost(calls + [c]) == Lost(calls)
  {
    if calls != [] {
      assert (calls + [c])[1..] == calls[1..] + [c];
      CountArrival(calls[1..], c);
    }
  }

  lemma {:induction false} CountOne(calls: seq<Call>, i: nat)
    requires i < |calls| && Outstanding(calls[i])
    ensures Held(calls) >= 1
  {
    if i > 0 {
      CountOne(calls[1..], i - 1);
    }
  }

  lemma NextKeepsInv(s: State, step: Step)
    requires Inv(s)
    ensures Inv(Next(s, step)) && Lost(s.calls) <= Lost(Next(s, step).calls)
  {
    if step.Arrive? {
      CountArrival(s.calls, Call(Queued, NotStarted));
    } else if step.call < |s.calls| {
      assert CallOk(s.calls[step.call]);
      CountUpdate(s.calls, step.call, Changed(s.calls[step.call], step, s.free).0);
    }
  }

  lemma {:induction false} RunKeepsInv(s: State, steps: seq<Step>)
    requires Inv(s)
    ensures Inv(Run(s, steps)) && Lost(s.calls) <= Lost(Run(s, steps).calls)
    decreases steps
  {
    if steps != [] {
      NextKeepsInv(s, steps[0]);
      RunKeepsInv(Next(s, steps[0]), steps[1..]);
    }
  }

  /**
   In every interleaving, callers that time out included, the free slots and the slots of callers and threads
   make up all eight, if and only if every thread that was to be started did start.
   */
  lemma SlotsBalance(steps: seq<Step>)
    ensures var s := Run(INITIAL, steps); s.free + Held(s.calls) + Lost(s.calls) == SLOTS
    ensures var s := Run(INITIAL, steps);
            s.free + Held(s.calls) == SLOTS <==> forall i | 0 <= i < |s.calls| :: !s.calls[i].lookup.Failed?
  {
    RunKeepsInv(INITIAL, steps);
    LostMeansFailed(Run(INITIAL, steps).calls);
  }

  lemma {:induction false} LostMeansFailed(calls: seq<Call>)
    ensures Lost(calls) == 0 <==> forall i | 0 <= i < |calls| :: !calls[i].lookup.Failed?
  {
    if calls != [] {
      LostMeansFailed(calls[1..]);
      if Lost(calls) == 0 {
        forall i | 0 <= i < |calls| ensures !calls[i].lookup.Failed? {
          if i > 0 {
            assert calls[i] == calls[1..][i - 1];
          }
        }
      } else if !calls[0].lookup.Failed? {
        var i :| 0 <= i < |calls[1..]| && calls[1..][i].lookup.Failed?;
        assert calls[i + 1].lookup.Failed?;
      }
    }
  }

  /** The bounded semaphore is never released beyond its bound. */
  lemma ReleaseStaysBounded(steps: seq<Step>, call: nat)
    ensures var s := Run(INITIAL, steps);
            call < |s.calls| && s.calls[call].lookup.Posted? ==>
              s.free < SLOTS && Next(s, Release(call)).free == s.free + 1
  {
    RunKeepsInv(INITIAL, steps);
    var s := Run(INITIAL, steps);
    if call < |s.calls| && s.calls[call].lookup.Posted? {
      CountOne(s.calls, call);
    }
  }

  /** Eight failed starts end name resolution for good: no caller gets a slot in any continuation. */
  lemma ExhaustedForever(s: State, steps: seq<Step>)
    requires Inv(s) && Lost(s.calls) == SLOTS
    ensures Run(s, steps).free == 0 && Held(Run(s, steps).calls) == 0
  {
    RunKeepsInv(s, steps);
  }

  /** A single failed start already breaks the balance. */
  lemma OneFailureLosesASlot()
    ensures var s := Run(INITIAL, [Arrive, Acquire(0), StartFails(0)]);
            s.free == SLOTS - 1 && Held(s.calls) == 0
  {
    var s1 := Next(INITIAL, Arrive);
    var s2 := Next(s1, Acquire(0));
    var s3 := Next(s2, StartFails(0));
    assert s3 == State(7, [Call(Gone, Failed)]);
    assert Run(s3, []) == s3;
    assert Run(s2, [StartFails(0)]) == s3;
    assert Run(s1, [Acquire(0), StartFails(0)]) == s3;
  }

  /** A queued caller gets a slot exactly while fewer than eight are held or lost, and takes one. */
  lemma AcquiresExactly(steps: seq<Step>, call: nat)
    ensures var s := Run(INITIAL, steps);
            var t := Next(s, Acquire(call));
            call < |s.calls| && s.calls[call].caller.Queued? ==>
              && (t.calls[call].caller.Holding? <==> Held(s.calls) + Lost(s.calls) < 8)
              && Held(t.calls) == Held(s.calls) + (if Held(s.calls) + Lost(s.calls) < 8 then 1 else 0)
  {
    RunKeepsInv(INITIAL, steps);
    var s := Run(INITIAL, steps);
    if call < |s.calls| && s.calls[call].caller.Queued? {
      assert CallOk(s.calls[call]);
      CountUpdate(s.calls, call, Changed(s.calls[call], Acquire(call), s.free).0);
    }
  }

  /** A lookup thread gives its slot back once it has posted its answer, whether or not its caller still waits for it. */
  lemma LookupReturnsSlot(steps: seq<Step>, call: nat)
    ensures var s := Run(INITIAL, steps);
            var posted := Next(s, Post(call));
            var t := Next(posted, Release(call));
            call < |s.calls| && s.calls[call].lookup.Running? ==>
              && posted.free == s.free && t.free == s.free + 1 && Held(t.calls) == Held(s.calls) - 1
              && t.calls[call].caller == s.calls[call].caller
              && (s.calls[call].caller.Waiting? ==> Next(posted, Answer(call)).calls[call].caller.Gone?)
  {
    RunKeepsInv(INITIAL, steps);
    var s := Run(INITIAL, steps);
    if call < |s.calls| && s.calls[call].lookup.Running? {
      assert CallOk(s.calls[call]);
      CountUpdate(s.calls, call, Call(s.calls[call].caller, Posted));
      var posted := Next(s, Post(call));
      CountUpdate(posted.calls, call, Call(s.calls[call].caller, Released));
    }
  }
}
