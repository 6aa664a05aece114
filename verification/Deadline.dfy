/** The shared deadline of a connection test: who closes which resource, over every interleaving. */
module Deadline {
  datatype Kind = SshClient | Socket | Other

  datatype Resource = Resource(id: nat, kind: Kind)

  // ---------------------------------------------------------------------------
  // The order of one close call.

  function Only(s: seq<Resource>, ssh: bool): seq<Resource> {
    if s == [] then []
    else (if s[0].kind.SshClient? == ssh then [s[0]] else []) + Only(s[1..], ssh)
  }

  /** The stable sort by "SSH client first". */
  function SshFirst(s: seq<Resource>): seq<Resource> {
    Only(s, true) + Only(s, false)
  }

  /** No SSH client stands after anything else. */
  predicate Ordered(s: seq<Resource>) {
    forall i, j | 0 <= i < j < |s| :: s[j].kind.SshClient? ==> s[i].kind.SshClient?
  }

  lemma {:induction false} OnlyOf(s: seq<Resource>, ssh: bool)
    ensures forall i | 0 <= i < |Only(s, ssh)| :: Only(s, ssh)[i].kind.SshClient? == ssh
  {
    if s != [] {
      OnlyOf(s[1..], ssh);
    }
  }

  lemma {:induction false} OnlyParts(s: seq<Resource>)
    ensures multiset(Only(s, true)) + multiset(Only(s, false)) == multiset(s)
  {
    if s != [] {
      var head, tail := multiset{s[0]}, s[1..];
      OnlyParts(tail);
      assert s == [s[0]] + tail;
      assert multiset(s) == head + multiset(tail);
      if s[0].kind.SshClient? {
        assert multiset(Only(s, true)) == head + multiset(Only(tail, true));
      } else {
        assert multiset(Only(s, false)) == head + multiset(Only(tail, false));
      }
    }
  }

  lemma {:induction false} OnlyAppend(a: seq<Resource>, b: seq<Resource>, ssh: bool)
    ensures Only(a + b, ssh) == Only(a, ssh) + Only(b, ssh)
  {
    if a == [] {
      assert a + b == b;
    } else {
      assert (a + b)[1..] == a[1..] + b;
      OnlyAppend(a[1..], b, ssh);
      var head := if a[0].kind.SshClient? == ssh then [a[0]] else [];
      assert head + (Only(a[1..], ssh) + Only(b, ssh)) == (head + Only(a[1..], ssh)) + Only(b, ssh);
    }
  }

  lemma {:induction false} OnlySame(s: seq<Resource>, ssh: bool)
    requires forall i | 0 <= i < |s| :: s[i].kind.SshClient? == ssh
    ensures Only(s, ssh) == s && Only(s, !ssh) == []
  {
    if s != [] {
      OnlySame(s[1..], ssh);
      assert s == [s[0]] + s[1..];
    }
  }

  /** SshFirst is a permutation that puts SSH clients first and keeps the order within either class. */
  lemma SshFirstSorts(s: seq<Resource>)
    ensures multiset(SshFirst(s)) == multiset(s)
    ensures Ordered(SshFirst(s))
    ensures Only(SshFirst(s), true) == Only(s, true) && Only(SshFirst(s), false) == Only(s, false)
  {
    hide Only;
    OnlyParts(s);
    assert multiset(SshFirst(s)) == multiset(Only(s, true)) + multiset(Only(s, false));
    OnlyOf(s, true);
    OnlyOf(s, false);
    OnlySame(Only(s, true), true);
    OnlySame(Only(s, false), false);
    OnlyAppend(Only(s, true), Only(s, false), true);
    OnlyAppend(Only(s, true), Only(s, false), false);
  }

  /** Nothing else is such a permutation. */
  lemma SshFirstIsUnique(s: seq<Resource>, t: seq<Resource>)
    requires Ordered(t) && Only(t, true) == Only(s, true) && Only(t, false) == Only(s, false)
    ensures t == SshFirst(s)
  {
    OrderedSplits(t);
  }

  lemma {:induction false} OrderedSplits(t: seq<Resource>)
    requires Ordered(t)
    ensures t == Only(t, true) + Only(t, false)
  {
    if t != [] {
      if t[0].kind.SshClient? {
        forall i, j | 0 <= i < j < |t[1..]| ensures t[1..][j].kind.SshClient? ==> t[1..][i].kind.SshClient? {
          assert t[1..][i] == t[i + 1] && t[1..][j] == t[j + 1];
        }
        OrderedSplits(t[1..]);
        assert t == [t[0]] + t[1..];
      } else {
        OnlySame(t, false);
      }
    }
  }

  // ---------------------------------------------------------------------------
  // Interleavings. Two threads can close: the timer, and the one that leaves the context.

  datatype Closer = Waiting | Cancelled | Called | Draining(batch: seq<Resource>, next: nat)

  datatype Who = Timer | Exit

  datatype Event = Event(closer: Who, resource: Resource) | Refused(resource: Resource)

  /** refused holds the resources whose rejecting own has left its lock block but not yet closed them. */
  datatype State = State(
    resources: seq<Resource>, closed: bool, expired: bool,
    timer: Closer, exit: Closer, refused: seq<Resource>,
    journal: seq<Event>, handed: seq<Resource>)

  const ENTERED := State([], false, false, Waiting, Waiting, [], [], [])

  function CloserOf(s: State, who: Who): Closer {
    if who.Timer? then s.timer else s.exit
  }

  function WithCloser(s: State, who: Who, c: Closer): State {
    if who.Timer? then s.(timer := c) else s.(exit := c)
  }

  datatype Step =
    | Own(resource: Resource)
    | CloseRefused(index: nat)
    | Fire
    | Leave
    | TakeAll(who: Who)
    | CloseOne(who: Who)

  /** One atomic step; a step that is not enabled changes nothing. */
  function Next(s: State, step: Step): State {
    match step
    case Own(r) =>
      var s := s.(handed := s.handed + [r]);
      if s.closed then s.(refused := s.refused + [r]) else s.(resources := s.resources + [r])
    case CloseRefused(i) =>
      if i >= |s.refused| then s
      else s.(refused := s.refused[..i] + s.refused[i + 1..], journal := s.journal + [Refused(s.refused[i])])
    case Fire =>
      if s.timer.Waiting? then s.(timer := Called, expired := true) else s
    case Leave =>
      if s.exit.Waiting? then s.(exit := Called, timer := if s.timer.Waiting? then Cancelled else s.timer) else s
    case TakeAll(who) =>
      if !CloserOf(s, who).Called? then s
      else WithCloser(s.(resources := [], closed := true), who, Draining(SshFirst(s.resources), 0))
    case CloseOne(who) =>
      var c := CloserOf(s, who);
      if !c.Draining? || c.next >= |c.batch| then s
      else WithCloser(s.(journal := s.journal + [Event(who, c.batch[c.next])]), who, c.(next := c.next + 1))
  }

  function Run(s: State, steps: seq<Step>): State
    decreases steps
  {
    if steps == [] then s else Run(Next(s, steps[0]), steps[1..])
  }

  // ---------------------------------------------------------------------------
  // What a run keeps.

  /** The resources a closer still has to close, and those it has closed. */
  function Left(c: Closer): seq<Resource> {
    if c.Draining? && c.next <= |c.batch| then c.batch[c.next..] else []
  }

  function Done(c: Closer): seq<Resource> {
    if c.Draining? && c.next <= |c.batch| then c.batch[..c.next] else []
  }

  function ClosedIn(journal: seq<Event>): seq<Resource> {
    if journal == [] then [] else ClosedIn(journal[..|journal| - 1]) + [journal[|journal| - 1].resource]
  }

  function Times(s: seq<Resource>, r: Resource): nat {
    multiset(s)[r]
  }

  lemma TimesAppend(a: seq<Resource>, b: seq<Resource>, r: Resource)
    ensures Times(a + b, r) == Times(a, r) + Times(b, r)
  {
  }

  /** What one closer has closed, in order. */
  function ClosedBy(journal: seq<Event>, who: Who): seq<Resource> {
    if journal == [] then []
    else
      var last := journal[|journal| - 1];
      ClosedBy(journal[..|journal| - 1], who) + (if last.Event? && last.closer == who then [last.resource] else [])
  }

  /** Everything handed over is held, about to be closed, or closed: nothing is lost, nothing is closed twice. */
  predicate Conserved(s: State, r: Resource) {
    Times(s.handed, r) == Times(s.resources, r) + Times(Left(s.timer), r) + Times(Left(s.exit), r)
                          + Times(s.refused, r) + Times(ClosedIn(s.journal), r)
  }

  predicate CloserOk(s: State, who: Who) {
    var c := CloserOf(s, who);
    && (c.Draining? ==> s.closed && c.next <= |c.batch| && Ordered(c.batch))
    && ClosedBy(s.journal, who) == Done(c)
  }

  predicate Shape(s: State) {
    && CloserOk(s, Timer) && CloserOk(s, Exit)
    && (s.closed <==> s.timer.Draining? || s.exit.Draining?)
    && (s.closed ==> s.resources == [])
    && (!s.closed ==> s.refused == [])
    && (s.timer.Draining? && s.exit.Draining? ==> s.timer.batch == [] || s.exit.batch == [])
    && (s.timer.Called? || s.timer.Draining? <==> s.expired)
    && (s.exit.Called? || s.exit.Draining? ==> !s.timer.Waiting?)
    && !s.exit.Cancelled?
  }

  ghost predicate Inv(s: State) {
    Shape(s) && forall r :: Conserved(s, r)
  }

  lemma JournalAppend(journal: seq<Event>, e: Event)
    ensures ClosedIn(journal + [e]) == ClosedIn(journal) + [e.resource]
    ensures forall who :: ClosedBy(journal + [e], who)
                       == ClosedBy(journal, who) + (if e.Event? && e.closer == who then [e.resource] else [])
  {
    assert (journal + [e])[..|journal|] == journal;
  }

  lemma NextKeepsShape(s: State, step: Step)
    requires Shape(s)
    ensures Shape(Next(s, step))
  {
    hide Ordered, SshFirst, ClosedBy, ClosedIn;
    match step
    case Own(r) =>
    case CloseRefused(i) =>
      if i < |s.refused| {
        JournalAppend(s.journal, Refused(s.refused[i]));
      }
    case Fire =>
    case Leave =>
    case TakeAll(who) =>
      TakeKeepsShape(s, who);
    case CloseOne(who) =>
      CloseKeepsShape(s, who);
  }

  lemma TakeKeepsShape(s: State, who: Who)
    requires Shape(s)
    ensures Shape(Next(s, TakeAll(who)))
  {
    hide Ordered, SshFirst, ClosedBy, Only;
    SshFirstSorts(s.resources);
    NothingSorted();
    if CloserOf(s, who).Called? {
      NothingTakenYet(s, who);
    }
  }

  /** A closer that has not taken anything has closed nothing, and neither has one that has just taken a batch. */
  lemma NothingTakenYet(s: State, who: Who)
    requires CloserOk(s, who) && CloserOf(s, who).Called?
    ensures ClosedBy(s.journal, who) == [] && Done(Draining(SshFirst(s.resources), 0)) == []
  {
    hide ClosedBy, Ordered, SshFirst;
  }

  lemma CloseKeepsShape(s: State, who: Who)
    requires Shape(s)
    ensures Shape(Next(s, CloseOne(who)))
  {
    hide Ordered, SshFirst, ClosedBy, ClosedIn;
    var c := CloserOf(s, who);
    if c.Draining? && c.next < |c.batch| {
      JournalAppend(s.journal, Event(who, c.batch[c.next]));
      assert c.batch[..c.next + 1] == c.batch[..c.next] + [c.batch[c.next]];
    }
  }

  lemma NothingSorted()
    ensures SshFirst([]) == []
  {
  }

  lemma NextConserves(s: State, step: Step, r: Resource)
    requires Shape(s) && Conserved(s, r)
    ensures Conserved(Next(s, step), r)
  {
    hide Times, ClosedIn, Left, CloserOk, SshFirst;
    match step
    case Own(x) =>
      TimesAppend(s.handed, [x], r);
      TimesAppend(s.resources, [x], r);
      TimesAppend(s.refused, [x], r);
    case CloseRefused(i) =>
      if i < |s.refused| {
        var x := s.refused[i];
        JournalAppend(s.journal, Refused(x));
        TimesAppend(ClosedIn(s.journal), [x], r);
        assert s.refused == s.refused[..i] + ([x] + s.refused[i + 1..]);
        TimesAppend(s.refused[..i], [x] + s.refused[i + 1..], r);
        TimesAppend([x], s.refused[i + 1..], r);
        TimesAppend(s.refused[..i], s.refused[i + 1..], r);
      }
    case Fire =>
      NothingLeft();
    case Leave =>
      NothingLeft();
    case TakeAll(who) =>
      NothingLeft();
      NoTimes(r);
      TakenAll(s.resources, r);
    case CloseOne(who) =>
      var c := CloserOf(s, who);
      if c.Draining? && c.next < |c.batch| {
        var x := c.batch[c.next];
        JournalAppend(s.journal, Event(who, x));
        TimesAppend(ClosedIn(s.journal), [x], r);
        LeftStep(c);
        TimesAppend([x], Left(c.(next := c.next + 1)), r);
      }
  }

  lemma NothingLeft()
    ensures forall c: Closer :: !c.Draining? ==> Left(c) == []
  {
  }

  lemma NoTimes(r: Resource)
    ensures Times([], r) == 0
  {
  }

  lemma TakenAll(taken: seq<Resource>, r: Resource)
    ensures Times(Left(Draining(SshFirst(taken), 0)), r) == Times(taken, r)
  {
    SshFirstSorts(taken);
    assert SshFirst(taken)[0..] == SshFirst(taken);
  }

  lemma LeftStep(c: Closer)
    requires c.Draining? && c.next < |c.batch|
    ensures Left(c) == [c.batch[c.next]] + Left(c.(next := c.next + 1))
  {
  }

  lemma NextKeepsInv(s: State, step: Step)
    requires Inv(s)
    ensures Inv(Next(s, step))
  {
    NextKeepsShape(s, step);
    forall r ensures Conserved(Next(s, step), r) {
      assert Conserved(s, r);
      NextConserves(s, step, r);
    }
    hide Shape, Conserved, Next;
  }

  lemma {:induction false} RunKeepsInv(s: State, steps: seq<Step>)
    requires Inv(s)
    ensures Inv(Run(s, steps))
    decreases steps
  {
    if steps != [] {
      NextKeepsInv(s, steps[0]);
      RunKeepsInv(Next(s, steps[0]), steps[1..]);
    }
  }

  // ---------------------------------------------------------------------------
  // The promises.

  predicate Finished(c: Closer) {
    c.Draining? && c.next == |c.batch|
  }

  /** In every interleaving a resource is closed at most as often as it was handed over. */
  lemma NeverClosedTwice(steps: seq<Step>)
    ensures var s := Run(ENTERED, steps); multiset(ClosedIn(s.journal)) <= multiset(s.handed)
  {
    RunKeepsInv(ENTERED, steps);
    var s := Run(ENTERED, steps);
    forall r ensures multiset(ClosedIn(s.journal))[r] <= multiset(s.handed)[r] {
      assert Conserved(s, r);
    }
  }

  /** Every close call closes SSH clients before anything else, and at most one call has anything to close. */
  lemma SshClientsFirst(steps: seq<Step>, who: Who)
    ensures Ordered(ClosedBy(Run(ENTERED, steps).journal, who))
    ensures var j := Run(ENTERED, steps).journal; ClosedBy(j, Timer) == [] || ClosedBy(j, Exit) == []
  {
    RunKeepsInv(ENTERED, steps);
  }

  predicate AllClosedOnce(s: State) {
    multiset(ClosedIn(s.journal)) == multiset(s.handed)
  }

  /**
   Once the context has been left and its close call is done, everything handed over has been closed exactly once
   if and only if the timer thread and the rejecting calls have nothing left to close.
   */
  lemma ClosedExactlyOnceAfterExit(s: State)
    requires Inv(s) && Finished(s.exit)
    ensures AllClosedOnce(s) <==> Left(s.timer) == [] && s.refused == []
  {
    if Left(s.timer) == [] && s.refused == [] {
      forall r ensures multiset(ClosedIn(s.journal))[r] == multiset(s.handed)[r] {
        assert Conserved(s, r);
      }
    } else {
      var r := if Left(s.timer) != [] then Left(s.timer)[0] else s.refused[0];
      assert Conserved(s, r);
      assert multiset(ClosedIn(s.journal))[r] < multiset(s.handed)[r];
    }
  }

  /** With both closers finished, or the timer cancelled, and no rejecting call under way, nothing is left open. */
  lemma NothingLeftOpen(steps: seq<Step>)
    ensures var s := Run(ENTERED, steps);
            Finished(s.exit) && (s.timer.Cancelled? || Finished(s.timer)) && s.refused == [] ==>
              AllClosedOnce(s) && s.resources == []
  {
    RunKeepsInv(ENTERED, steps);
    var s := Run(ENTERED, steps);
    if Finished(s.exit) {
      ClosedExactlyOnceAfterExit(s);
    }
  }

  /** Leaving the context alone does not suffice: the timer may have taken a resource it has not closed yet. */
  lemma ExitMayLeaveOpen()
    ensures var s := Run(ENTERED, [Own(Resource(0, Socket)), Fire, TakeAll(Timer), Leave, TakeAll(Exit)]);
            Finished(s.exit) && !AllClosedOnce(s) && s.handed == [Resource(0, Socket)] && s.journal == []
  {
    var r := Resource(0, Socket);
    var s1 := Next(ENTERED, Own(r));
    var s2 := Next(s1, Fire);
    var s3 := Next(s2, TakeAll(Timer));
    var s4 := Next(s3, Leave);
    var s5 := Next(s4, TakeAll(Exit));
    assert Only([r], true) == [] && Only([r], false) == [r];
    assert Run(s5, []) == s5;
    assert Run(s4, [TakeAll(Exit)]) == s5;
    assert Run(s3, [Leave, TakeAll(Exit)]) == s5;
    assert Run(s2, [TakeAll(Timer), Leave, TakeAll(Exit)]) == s5;
    assert Run(s1, [Fire, TakeAll(Timer), Leave, TakeAll(Exit)]) == s5;
  }

  /** After the first close call no later owner keeps its resource: it is refused and closed on its own. */
  lemma LateOwnersAreRefused(steps: seq<Step>, resource: Resource)
    ensures var s := Run(ENTERED, steps);
            var t := Next(s, Own(resource));
            (s.timer.Draining? || s.exit.Draining?) ==>
              t.resources == [] && t.refused == s.refused + [resource] && t.timer == s.timer && t.exit == s.exit
  {
    RunKeepsInv(ENTERED, steps);
  }

  /** What closing threads still have to do: one lock block each, and one close for every resource not yet closed. */
  function Work(s: State): nat {
    |s.resources| + |Left(s.timer)| + |Left(s.exit)| + |s.refused|
    + (if s.timer.Called? then 1 else 0) + (if s.exit.Called? then 1 else 0)
  }

  lemma SortedLength(s: seq<Resource>)
    ensures |SshFirst(s)| == |s|
  {
    SshFirstSorts(s);
    assert |multiset(SshFirst(s))| == |s|;
  }

  /** Closing always makes progress: while there is work after leaving, some closing step does one unit of it. */
  lemma ClosingMakesProgress(s: State) returns (step: Step)
    requires Shape(s) && (s.exit.Called? || s.exit.Draining?) && Work(s) > 0
    ensures step.CloseRefused? || step.TakeAll? || step.CloseOne?
    ensures var t := Next(s, step); Work(t) == Work(s) - 1 && (t.exit.Called? || t.exit.Draining?) && t.handed == s.handed
  {
    hide ClosedBy, Ordered, SshFirst;
    SortedLength(s.resources);
    if s.refused != [] {
      step := CloseRefused(0);
    } else if s.exit.Called? {
      step := TakeAll(Exit);
    } else if s.timer.Called? {
      step := TakeAll(Timer);
    } else if Left(s.timer) != [] {
      step := CloseOne(Timer);
    } else {
      step := CloseOne(Exit);
    }
  }

  lemma NoWorkMeansClosed(s: State)
    requires Inv(s) && (s.exit.Called? || s.exit.Draining?) && Work(s) == 0
    ensures AllClosedOnce(s) && Finished(s.exit)
  {
    hide ClosedIn, ClosedBy, AllClosedOnce;
    ClosedExactlyOnceAfterExit(s);
  }

  /** Therefore leaving the context ends, after exactly that many closing steps, with everything closed exactly once. */
  lemma {:induction false} ClosingEnds(s: State) returns (steps: seq<Step>)
    requires Inv(s) && (s.exit.Called? || s.exit.Draining?)
    ensures |steps| == Work(s)
    ensures var t := Run(s, steps); t.handed == s.handed && AllClosedOnce(t) && Finished(t.exit)
    decreases Work(s)
  {
    hide Conserved, Work, Next, Finished, AllClosedOnce, CloserOk;
    if Work(s) == 0 {
      NoWorkMeansClosed(s);
      steps := [];
    } else {
      var step := ClosingMakesProgress(s);
      NextKeepsInv(s, step);
      var rest := ClosingEnds(Next(s, step));
      steps := [step] + rest;
    }
  }

  // The object itself. Each call is a run of steps; the other steps of an interleaving are other threads' calls.

  lemma {:induction false} RunAppend(s: State, first: seq<Step>, second: seq<Step>)
    ensures Run(s, first + second) == Run(Run(s, first), second)
    decreases |first|
  {
    if first == [] {
      assert first + second == second;
    } else {
      assert (first + second)[1..] == first[1..] + second;
      RunAppend(Next(s, first[0]), first[1..], second);
    }
  }

  lemma StepAppended(s: State, steps: seq<Step>, step: Step)
    ensures Run(s, steps + [step]) == Next(Run(s, steps), step)
  {
    RunAppend(s, steps, [step]);
    var t := Run(s, steps);
    assert [step][1..] == [];
    assert Run(t, [step]) == Run(Next(t, step), []);
  }

  /** One close call: everything is taken, then closed one by one. */
  predicate IsCloseCall(steps: seq<Step>, who: Who) {
    steps != [] && steps[0] == TakeAll(who) && forall i | 1 <= i < |steps| :: steps[i] == CloseOne(who)
  }

  /** Nothing but the closer itself, the resources and the journal has changed. */
  predicate OnlyCloses(s: State, t: State, who: Who) {
    && t.handed == s.handed && t.refused == s.refused && t.expired == s.expired
    && (if who.Timer? then t.exit == s.exit else t.timer == s.timer)
  }

  function ClosedEvents(batch: seq<Resource>, who: Who): seq<Event> {
    seq(|batch|, i requires 0 <= i < |batch| => Event(who, batch[i]))
  }

  class SharedDeadline {
    var expired: bool
    var closed: bool
    var resources: seq<Resource>
    var journal: seq<Event>

    constructor ()
      ensures Mirrors(ENTERED)
    {
      expired, closed, resources, journal := false, false, [], [];
    }

    /** The state s has this object's fields and the close calls made so far. */
    ghost predicate Mirrors(s: State)
      reads this
    {
      s.expired == expired && s.closed == closed && s.resources == resources && s.journal == journal
    }

    /** own: keeps the resource for the closers, or closes it at once when closing has begun. */
    method Own(resource: Resource, ghost s: State) returns (kept: bool, ghost steps: seq<Step>)
      requires Mirrors(s)
      modifies this`resources, this`journal
      ensures kept == !closed
      ensures steps == if kept then [Step.Own(resource)] else [Step.Own(resource), CloseRefused(|s.refused|)]
      ensures var t := Run(s, steps);
              && Mirrors(t) && t.handed == s.handed + [resource]
              && t.refused == s.refused && t.timer == s.timer && t.exit == s.exit
      ensures if kept then resources == old(resources) + [resource] && journal == old(journal)
              else resources == old(resources) && journal == old(journal) + [Refused(resource)]
    {
      hide Run;
      var wasClosed := closed;
      if !wasClosed {
        resources := resources + [resource];
      }
      steps := [];
      RunNothing(s);
      StepAppended(s, steps, Step.Own(resource));
      steps := steps + [Step.Own(resource)];
      if wasClosed {
        journal := journal + [Refused(resource)];
        StepAppended(s, steps, CloseRefused(|s.refused|));
        steps := steps + [CloseRefused(|s.refused|)];
        return false, steps;
      }
      return true, steps;
    }

    /** close: takes everything under the lock, then closes it outside, SSH clients first. */
    method Close(who: Who, ghost s: State) returns (ghost steps: seq<Step>)
      requires Mirrors(s) && CloserOf(s, who).Called?
      modifies this`closed, this`resources, this`journal
      ensures IsCloseCall(steps, who)
      ensures var t := Run(s, steps); Mirrors(t) && Finished(CloserOf(t, who)) && OnlyCloses(s, t, who)
      ensures closed && resources == [] && journal == old(journal) + ClosedEvents(SshFirst(old(resources)), who)
    {
      hide Run, SshFirst;
      closed := true;
      var taken := resources;
      resources := [];
      var sorted := Sorted(taken);
      steps := [];
      RunNothing(s);
      StepAppended(s, steps, TakeAll(who));
      steps := [TakeAll(who)];
      assert [] + [TakeAll(who)] == [TakeAll(who)];
      var i := 0;
      while i < |sorted|
        invariant 0 <= i <= |sorted|
        invariant journal == old(journal) + ClosedEvents(sorted, who)[..i]
        invariant closed && resources == [] && IsCloseCall(steps, who)
        invariant var t := Run(s, steps); Mirrors(t) && CloserOf(t, who) == Draining(sorted, i) && OnlyCloses(s, t, who)
      {
        assert ClosedEvents(sorted, who)[..i + 1] == ClosedEvents(sorted, who)[..i] + [Event(who, sorted[i])];
        journal := journal + [Event(who, sorted[i])];
        StepAppended(s, steps, CloseOne(who));
        steps := steps + [CloseOne(who)];
        i := i + 1;
      }
      assert ClosedEvents(sorted, who)[..i] == ClosedEvents(sorted, who);
    }

    /** _expire: the timer's thread. */
    method Expire(ghost s: State) returns (ghost steps: seq<Step>)
      requires Mirrors(s) && s.timer.Waiting?
      modifies this
      ensures steps != [] && steps[0] == Fire && IsCloseCall(steps[1..], Timer)
      ensures var t := Run(s, steps); Mirrors(t) && Finished(t.timer) && t.exit == s.exit && t.handed == s.handed && t.refused == s.refused
      ensures Inv(s) ==> Inv(Run(s, steps))
      ensures expired && closed && resources == []
    {
      hide Run, Inv;
      expired := true;
      ghost var rest := Close(Timer, Next(s, Fire));
      steps := [Fire] + rest;
      RunCons(s, Fire, rest);
      if Inv(s) {
        RunKeepsInv(s, steps);
      }
    }

    /** __exit__: the timer is cancelled if it still waits, and the context's own thread closes. */
    method Exit(ghost s: State) returns (ghost steps: seq<Step>)
      requires Mirrors(s) && s.exit.Waiting?
      modifies this`closed, this`resources, this`journal
      ensures steps != [] && steps[0] == Leave && IsCloseCall(steps[1..], Who.Exit)
      ensures var t := Run(s, steps); Mirrors(t) && Finished(t.exit) && !t.timer.Waiting? && t.handed == s.handed && t.refused == s.refused
      ensures Inv(s) ==> Inv(Run(s, steps))
      ensures closed && resources == []
    {
      hide Run, Inv;
      ghost var rest := Close(Who.Exit, Next(s, Leave));
      steps := [Leave] + rest;
      RunCons(s, Leave, rest);
      if Inv(s) {
        RunKeepsInv(s, steps);
      }
    }
  }

  lemma RunNothing(s: State)
    ensures Run(s, []) == s
  {
  }

  lemma RunCons(s: State, step: Step, rest: seq<Step>)
    ensures Run(s, [step] + rest) == Run(Next(s, step), rest) && ([step] + rest)[1..] == rest
  {
    assert ([step] + rest)[1..] == rest;
  }

  /** The stable sort of the taken resources, by two lists because the key has two values. */
  method Sorted(taken: seq<Resource>) returns (sorted: seq<Resource>)
    ensures sorted == SshFirst(taken)
  {
    var first, second := [], [];
    var i := 0;
    while i < |taken|
      invariant 0 <= i <= |taken|
      invariant first == Only(taken[..i], true) && second == Only(taken[..i], false)
    {
      assert taken[..i + 1] == taken[..i] + [taken[i]];
      OnlyAppend(taken[..i], [taken[i]], true);
      OnlyAppend(taken[..i], [taken[i]], false);
      if taken[i].kind.SshClient? {
        first := first + [taken[i]];
      } else {
        second := second + [taken[i]];
      }
      i := i + 1;
    }
    assert taken[..i] == taken;
    sorted := first + second;
  }
}
