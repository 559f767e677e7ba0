/**
 The event loop around one program: five executor queues, a program that gives them commands and waits
 for some, and the polling that runs commands, completes futures and lets the program go on.
 */
module EventLoop {
  import opened EventQueues

  /** A future: its queue and its number there. */
  datatype Ticket = Ticket(queue: Queue, index: nat)

  /** What the program does next that the queues notice. Only the painter has commands without a future. */
  datatype Action = Fire(cmd: nat) | Call(queue: Queue, cmd: nat) | Await(ticket: Ticket)

  function NewQueue(q: Queue): Executor { Executor([], [], [], [], []) }

  type Executors = m: map<Queue, Executor> | forall q :: q in m
    witness map q: Queue :: NewQueue(q)

  type Counts = m: map<Queue, nat> | forall q :: q in m
    witness map q: Queue :: 0

  // ---------- the program ----------

  /** The commands for queue `q` in a program. */
  function Commands(todo: seq<Action>, q: Queue): seq<nat> {
    if todo == [] then []
    else
      var rest := Commands(todo[1..], q);
      match todo[0]
      case Fire(cmd) => if q.Painter? then [cmd] + rest else rest
      case Call(p, cmd) => if p == q then [cmd] + rest else rest
      case Await(_) => rest
  }

  /** The action gives queue `q` a command; only the painter is given commands that nobody waits for. */
  predicate Gives(a: Action, q: Queue) { (a.Fire? && q.Painter?) || (a.Call? && a.queue == q) }

  function CountGives(todo: seq<Action>, q: Queue): nat {
    if todo == [] then 0 else (if Gives(todo[0], q) then 1 else 0) + CountGives(todo[1..], q)
  }

  /** A queue is given the commands of the actions that are for it, each once and in their order, and no others. */
  lemma {:induction false} CommandsExactly(todo: seq<Action>, q: Queue)
    ensures |Commands(todo, q)| == CountGives(todo, q)
    ensures forall i :: 0 <= i < |todo| && Gives(todo[i], q) ==>
              CountGives(todo[..i], q) < |Commands(todo, q)| && Commands(todo, q)[CountGives(todo[..i], q)] == todo[i].cmd
    decreases todo
  {
    if todo != [] {
      var rest := todo[1..];
      CommandsExactly(rest, q);
      forall i | 0 <= i < |todo| && Gives(todo[i], q)
        ensures CountGives(todo[..i], q) < |Commands(todo, q)| && Commands(todo, q)[CountGives(todo[..i], q)] == todo[i].cmd
      {
        if i > 0 { assert todo[..i][1..] == rest[..i - 1] && todo[i] == rest[i - 1]; }
      }
    }
  }

  function Futures(es: Executors): Counts {
    map q: Queue :: |es[q].promises|
  }

  /** The program awaits only futures that it has been given before. */
  predicate Known(todo: seq<Action>, made: Counts) {
    todo == [] ||
    match todo[0]
    case Fire(_) => Known(todo[1..], made)
    case Call(q, _) => Known(todo[1..], made[q := made[q] + 1])
    case Await(t) => t.index < made[t.queue] && Known(todo[1..], made)
  }

  lemma FuturesAt(es: Executors, q: Queue)
    ensures Futures(es)[q] == |es[q].promises|
  {
  }

  lemma FuturesUpdate(es: Executors, q: Queue, e: Executor)
    ensures Futures(es[q := e]) == Futures(es)[q := |e.promises|]
  {
  }

  lemma FuturesSame(es: Executors, q: Queue, e: Executor)
    requires |e.promises| == |es[q].promises|
    ensures Futures(es[q := e]) == Futures(es)
  {
  }

  predicate FutureDone(es: Executors, t: Ticket) {
    t.index < |es[t.queue].promises| && es[t.queue].promises[t.index].done
  }

  // ---------- all queues together ----------

  function WaiterAt(waiting: Option<Ticket>, q: Queue): Option<nat> {
    if waiting.Some? && waiting.value.queue == q then Some(waiting.value.index) else None
  }

  function Waits(waiting: Option<Ticket>): seq<Ticket> {
    if waiting.Some? then [waiting.value] else []
  }

  function FlightAt(turn: Queue, fl: Flight, q: Queue): Flight { if q == turn then fl else IDLE }

  predicate SoundAt(es: Executors, waiting: Option<Ticket>, turn: Queue, fl: Flight, q: Queue) {
    Sound(es[q], FlightAt(turn, fl, q), WaiterAt(waiting, q), Paired(q))
  }

  predicate AllSound(es: Executors, waiting: Option<Ticket>, turn: Queue, fl: Flight) {
    forall q :: SoundAt(es, waiting, turn, fl, q)
  }

  /** The queue whose turn it is. */
  lemma SoundHere(es: Executors, waiting: Option<Ticket>, fl: Flight, q: Queue)
    requires AllSound(es, waiting, q, fl)
    ensures Sound(es[q], fl, WaiterAt(waiting, q), Paired(q))
  {
    assert SoundAt(es, waiting, q, fl, q);
  }

  /** A step of one queue concerns the others only through the waiting program. */
  lemma UpdateSound(es: Executors, waiting: Option<Ticket>, turn: Queue, fl: Flight,
                    q: Queue, e: Executor, waiting': Option<Ticket>, fl': Flight)
    requires AllSound(es, waiting, turn, fl)
    requires Sound(e, FlightAt(turn, fl', q), WaiterAt(waiting', q), Paired(q))
    requires forall p :: p != q ==> WaiterAt(waiting', p) == WaiterAt(waiting, p)
    requires q == turn || fl' == fl
    ensures AllSound(es[q := e], waiting', turn, fl')
  {
    hide Sound;
    var es' := es[q := e];
    assert forall p :: SoundAt(es, waiting, turn, fl, p) ==> SoundAt(es', waiting', turn, fl', p);
  }

  /** Between two turns it does not matter whose turn it is. */
  lemma IdleTurn(es: Executors, waiting: Option<Ticket>, turn: Queue, turn': Queue)
    requires AllSound(es, waiting, turn, IDLE)
    ensures AllSound(es, waiting, turn', IDLE)
  {
    hide Sound;
    assert forall p :: SoundAt(es, waiting, turn, IDLE, p) ==> SoundAt(es, waiting, turn', IDLE, p);
  }

  /** What can be seen of the loop from outside. */
  datatype View = View(executors: Executors, waiting: Option<Ticket>, todo: seq<Action>, resumes: seq<Ticket>)

  /** All commands queue `q` has been given or will be. */
  function Plan(v: View, q: Queue): seq<nat> {
    v.executors[q].given + Commands(v.todo, q)
  }

  predicate SamePlans(a: View, b: View) { forall q :: Plan(b, q) == Plan(a, q) }

  lemma SamePlansTwice(a: View, b: View, c: View)
    requires SamePlans(a, b) && SamePlans(b, c)
    ensures SamePlans(a, c)
  {
    forall q
      ensures Plan(c, q) == Plan(a, q)
    {
      assert Plan(b, q) == Plan(a, q);
    }
  }

  /** A queue that gets no command. */
  lemma GivenSame(a: View, b: View, q: Queue)
    requires forall p :: p != q ==> b.executors[p] == a.executors[p]
    requires b.executors[q].given == a.executors[q].given && b.todo == a.todo
    ensures SamePlans(a, b)
  {
  }

  /** What is left to do: an action each, and one more for a program that is still to be woken. */
  function Effort(v: View): nat { |v.todo| + |Waits(v.waiting)| }

  predicate Empty(e: Executor) { e.cmds == [] && e.futs == [] }

  predicate SameLine(a: Executor, b: Executor) { b.cmds == a.cmds && b.futs == a.futs }

  /** Nobody was woken, and of the queues only `q` has changed. */
  predicate Quiet(a: View, b: View, q: Queue) {
    && b.resumes == a.resumes && b.waiting == a.waiting && b.todo == a.todo
    && forall p :: p != q ==> b.executors[p] == a.executors[p]
  }

  /** The program was woken, and its progress pays for that. */
  predicate Woken(a: View, b: View) {
    a.waiting.Some? && Effort(b) < Effort(a)
  }

  /** Part of the turn of queue `q`, after it was emptied and `n` of its futures were completed. */
  predicate Passing(a: View, b: View, q: Queue, n: nat) {
    && SamePlans(a, b)
    && (b.waiting.None? ==> b.todo == [])
    && ((Quiet(a, b, q) && Empty(b.executors[q])) || (Woken(a, b) && n > 0))
  }

  lemma PassOn(a: View, b: View, c: View, q: Queue, n: nat, n': nat)
    requires Passing(a, b, q, n) && SamePlans(b, c) && n <= n'
    requires c.waiting.None? ==> c.todo == []
    requires (Quiet(b, c, q) && SameLine(b.executors[q], c.executors[q])) || (Woken(b, c) && n' > 0)
    ensures Passing(a, c, q, n')
  {
    SamePlansTwice(a, b, c);
  }

  /** The whole turn of queue `q`: if the program waited for one of its futures, it was woken. */
  predicate Passed(a: View, b: View, q: Queue, n: nat) {
    && Passing(a, b, q, n)
    && (a.waiting.Some? && a.waiting.value.queue == q ==> Woken(a, b))
  }

  lemma PassEnds(a: View, b: View, q: Queue, n: nat, n': nat, turn: Queue)
    requires Passing(a, b, q, n) && AllSound(b.executors, b.waiting, turn, IDLE) && n <= n'
    ensures Passed(a, b, q, n')
  {
    if Quiet(a, b, q) && a.waiting.Some? && a.waiting.value.queue == q && Empty(b.executors[q]) {
      assert SoundAt(b.executors, b.waiting, turn, IDLE, q);
      WaiterHasEvent(b.executors[q], IDLE, WaiterAt(b.waiting, q), Paired(q));
    }
  }

  lemma Landed(es: Executors, waiting: Option<Ticket>, turn: Queue, fl: Flight)
    requires AllSound(es, waiting, turn, fl) && fl.cmds == [] && fl.futs == []
    ensures AllSound(es, waiting, turn, IDLE)
  {
    forall q
      ensures SoundAt(es, waiting, turn, IDLE, q)
    {
      assert SoundAt(es, waiting, turn, fl, q);
    }
  }

  lemma StillEnded(a: View, b: View, q: Queue, n: nat)
    requires Passed(a, b, q, n)
    ensures b.waiting.None? ==> b.todo == []
    ensures a.waiting.None? ==> b.waiting.None?
  {
  }

  /** What one turn does to the effort that is left. */
  lemma PassedEffort(a: View, b: View, q: Queue, n: nat)
    requires Passed(a, b, q, n)
    ensures SamePlans(a, b) && Effort(b) <= Effort(a)
    ensures Effort(b) < Effort(a) ==> n > 0
    ensures b.waiting == a.waiting || Effort(b) < Effort(a)
    ensures a.waiting.Some? && a.waiting.value.queue == q ==> Effort(b) < Effort(a)
  {
  }

  /** Nobody waits, so a turn only empties its own queue. */
  lemma PassedQuiet(a: View, b: View, q: Queue, n: nat)
    requires Passed(a, b, q, n) && a.waiting.None?
    ensures b.waiting.None? && Empty(b.executors[q])
    ensures forall p :: p != q ==> b.executors[p] == a.executors[p]
  {
  }

  lemma FullPass(v0: View, v1: View, v2: View, v3: View, v4: View, v5: View, n: seq<nat>)
    requires |n| == 5
    requires Passed(v0, v1, Robot, n[0]) && Passed(v1, v2, Turtle, n[1]) && Passed(v2, v3, Drawer, n[2])
    requires Passed(v3, v4, Painter, n[3]) && Passed(v4, v5, Io, n[4])
    ensures SamePlans(v0, v5)
    ensures v0.waiting.Some? ==> n[0] + n[1] + n[2] + n[3] + n[4] > 0 && Effort(v5) < Effort(v0)
    ensures v0.waiting.None? ==> v5.waiting.None? && forall q :: Empty(v5.executors[q])
  {
    hide Passed, SamePlans, Effort, Empty;
    PassedEffort(v0, v1, Robot, n[0]);
    PassedEffort(v1, v2, Turtle, n[1]);
    PassedEffort(v2, v3, Drawer, n[2]);
    PassedEffort(v3, v4, Painter, n[3]);
    PassedEffort(v4, v5, Io, n[4]);
    SamePlansTwice(v0, v1, v2);
    SamePlansTwice(v0, v2, v3);
    SamePlansTwice(v0, v3, v4);
    SamePlansTwice(v0, v4, v5);
    if v0.waiting.None? {
      PassedQuiet(v0, v1, Robot, n[0]);
      PassedQuiet(v1, v2, Turtle, n[1]);
      PassedQuiet(v2, v3, Drawer, n[2]);
      PassedQuiet(v3, v4, Painter, n[3]);
      PassedQuiet(v4, v5, Io, n[4]);
    }
  }

  /** Once all queues are empty, what was planned at the start is what has been run. */
  lemma RunEnded(a: View, b: View, turn: Queue)
    requires SamePlans(a, b) && AllSound(b.executors, b.waiting, turn, IDLE)
    requires b.todo == [] && forall q :: Empty(b.executors[q])
    ensures forall q :: b.executors[q].run == Plan(a, q)
    ensures forall q, f :: 0 <= f < |b.executors[q].promises| ==> b.executors[q].promises[f].done
  {
    forall q
      ensures b.executors[q].run == Plan(a, q)
      ensures forall f :: 0 <= f < |b.executors[q].promises| ==> b.executors[q].promises[f].done
    {
      assert SoundAt(b.executors, b.waiting, turn, IDLE, q) && Empty(b.executors[q]);
      DrainedMeansAllRun(b.executors[q], WaiterAt(b.waiting, q), Paired(q));
      assert Plan(b, q) == Plan(a, q);
    }
  }

  class EventLoop {
    var executors: Executors
    var waiting: Option<Ticket>
    var todo: seq<Action>
    var suspends: seq<Ticket>
    var resumes: seq<Ticket>
    ghost var turn: Queue
    ghost var flight: Flight

    /** Every queue is sound; each wait but the current one has ended once, in order. */
    ghost predicate Valid()
      reads this
    {
      && AllSound(executors, waiting, turn, flight)
      && suspends == resumes + Waits(waiting)
      && Known(todo, Futures(executors))
    }

    function Seen(): View
      reads this
    {
      View(executors, waiting, todo, resumes)
    }

    constructor ()
      ensures Valid() && flight == IDLE && waiting.None? && todo == []
      ensures forall q :: executors[q] == NewQueue(q)
    {
      executors := map q: Queue :: NewQueue(q);
      waiting, todo, suspends, resumes := None, [], [], [];
      turn, flight := Robot, IDLE;
    }

    /** A painter command. */
    method FireNext()
      requires Valid() && todo != [] && todo[0].Fire?
      modifies this`executors, this`todo
      ensures Valid() && todo == old(todo[1..])
      ensures executors == old(executors)[Painter := Fired(old(executors)[Painter], old(todo[0].cmd))]
    {
      hide Sound;
      var e := Fired(executors[Painter], todo[0].cmd);
      assert SoundAt(executors, waiting, turn, flight, Painter);
      FiredSound(executors[Painter], FlightAt(turn, flight, Painter), WaiterAt(waiting, Painter), todo[0].cmd);
      UpdateSound(executors, waiting, turn, flight, Painter, e, waiting, flight);
      FuturesSame(executors, Painter, e);
      executors := executors[Painter := e];
      todo := todo[1..];
    }

    /** A call of an executor; the program gets the number of the new future. */
    method CallNext() returns (ticket: Ticket)
      requires Valid() && todo != [] && todo[0].Call?
      modifies this`executors, this`todo
      ensures Valid() && todo == old(todo[1..])
      ensures ticket == Ticket(old(todo[0].queue), |old(executors)[old(todo[0].queue)].promises|)
      ensures executors == old(executors)[old(todo[0].queue) := Enqueued(old(executors)[old(todo[0].queue)], old(todo[0].cmd))]
    {
      hide Sound;
      var q := todo[0].queue;
      var e := Enqueued(executors[q], todo[0].cmd);
      assert SoundAt(executors, waiting, turn, flight, q);
      EnqueuedSound(executors[q], FlightAt(turn, flight, q), WaiterAt(waiting, q), Paired(q), todo[0].cmd);
      UpdateSound(executors, waiting, turn, flight, q, e, waiting, flight);
      FuturesUpdate(executors, q, e);
      FuturesAt(executors, q);
      ticket := Ticket(q, |executors[q].promises|);
      executors := executors[q := e];
      todo := todo[1..];
    }

    /** Awaiting a future: nothing happens if it is complete, otherwise the program stops here. */
    method AwaitNext()
      requires Valid() && todo != [] && todo[0].Await? && waiting.None?
      modifies this`executors, this`todo, this`waiting, this`suspends
      ensures Valid() && todo == old(todo[1..]) && suspends == old(suspends) + Waits(waiting)
      ensures FutureDone(old(executors), old(todo[0].ticket)) ==> waiting == None
      ensures !FutureDone(old(executors), old(todo[0].ticket)) ==> waiting == Some(old(todo[0].ticket))
      ensures forall q :: executors[q].given == old(executors)[q].given
    {
      hide Sound;
      var t := todo[0].ticket;
      FuturesAt(executors, t.queue);
      if !executors[t.queue].promises[t.index].done {
        var e := Awaited(executors[t.queue], t.index);
        assert SoundAt(executors, waiting, turn, flight, t.queue);
        AwaitedSound(executors[t.queue], FlightAt(turn, flight, t.queue), Paired(t.queue), t.index);
        UpdateSound(executors, waiting, turn, flight, t.queue, e, Some(t), flight);
        FuturesSame(executors, t.queue, e);
        executors := executors[t.queue := e];
        waiting := Some(t);
        suspends := suspends + [t];
      }
      todo := todo[1..];
    }

    /** The program runs until it has to wait or has ended. */
    method RunProgram()
      requires Valid() && waiting.None?
      modifies this`executors, this`todo, this`waiting, this`suspends
      ensures Valid() && (waiting.None? ==> todo == [])
      ensures SamePlans(old(Seen()), Seen()) && Effort(Seen()) <= old(Effort(Seen()))
    {
      hide Sound, AllSound, Known;
      while todo != [] && waiting.None?
        invariant Valid()
        invariant SamePlans(old(Seen()), Seen()) && Effort(Seen()) <= old(Effort(Seen()))
        decreases |todo|
      {
        ghost var was := Seen();
        if todo[0].Fire? {
          FireNext();
        } else if todo[0].Call? {
          var _ := CallNext();
        } else {
          AwaitNext();
        }
        forall q
          ensures Plan(Seen(), q) == Plan(was, q)
        {
          StepKeepsPlan(was, Seen(), q);
        }
      }
    }

    /** The next future in flight gets its result and gives up its caller. */
    method Complete(q: Queue, f: nat) returns (called: bool)
      requires Valid() && q == turn && MayComplete(flight, Paired(q)) && f == flight.futs[0]
      requires !Paired(q) ==> f < flight.ready
      modifies this`executors, this`waiting, this`resumes, this`flight
      ensures Valid() && flight == old(flight.(futs := flight.futs[1..]))
      ensures called == (old(waiting) == Some(Ticket(q, f)))
      ensures waiting == (if called then None else old(waiting))
      ensures resumes == old(resumes) + if called then [Ticket(q, f)] else []
      ensures f < |old(executors)[q].promises| && executors == old(executors)[q := Completed(old(executors)[q], f)]
    {
      hide Sound, AllSound, Known, Futures, MayComplete;
      NextIsThere(flight, Paired(q));
      ghost var w' := if waiting == Some(Ticket(q, f)) then None else waiting;
      SoundHere(executors, waiting, flight, q);
      CompletedSound(executors[q], flight, WaiterAt(waiting, q), Paired(q));
      CallerWaits(executors[q], flight, WaiterAt(waiting, q), Paired(q), f);
      called := executors[q].promises[f].caller;
      var e := Completed(executors[q], f);
      UpdateSound(executors, waiting, turn, flight, q, e, w', flight.(futs := flight.futs[1..]));
      FuturesSame(executors, q, e);
      executors := executors[q := e];
      flight := flight.(futs := flight.futs[1..]);
      if called {
        waiting := None;
        resumes := resumes + [Ticket(q, f)];
      }
    }

    /** Whoever waits for the next future in flight goes on. */
    method Resume(q: Queue, f: nat)
      requires Valid() && q == turn && MayComplete(flight, Paired(q)) && f == flight.futs[0]
      requires !Paired(q) ==> f < flight.ready
      requires waiting.None? ==> todo == []
      modifies this`executors, this`todo, this`waiting, this`suspends, this`resumes, this`flight
      ensures Valid() && flight == old(flight.(futs := flight.futs[1..]))
      ensures SamePlans(old(Seen()), Seen()) && (waiting.None? ==> todo == [])
      ensures if old(waiting) == Some(Ticket(q, f)) then Woken(old(Seen()), Seen())
              else Quiet(old(Seen()), Seen(), q) && SameLine(old(executors)[q], executors[q])
    {
      hide Sound, AllSound, Known, SamePlans, Futures, MayComplete;
      var called := Complete(q, f);
      ghost var mid := Seen();
      GivenSame(old(Seen()), mid, q);
      if called {
        RunProgram();
        SamePlansTwice(old(Seen()), mid, Seen());
      }
    }

    /** Moves all commands and futures out of a queue. */
    method TakeEvents(q: Queue) returns (cmds: seq<nat>, futs: seq<nat>)
      requires Valid() && flight == IDLE && Paired(q) && (waiting.None? ==> todo == [])
      modifies this`executors, this`turn, this`flight
      ensures Valid() && turn == q && flight == Flight(cmds, futs, 0) && |cmds| == |futs|
      ensures Passing(old(Seen()), Seen(), q, 0)
    {
      hide Sound, AllSound, Known, Futures;
      cmds, futs := executors[q].cmds, executors[q].futs;
      IdleTurn(executors, waiting, turn, q);
      SoundHere(executors, waiting, IDLE, q);
      EventsMatch(executors[q], WaiterAt(waiting, q));
      var e := executors[q].(cmds := [], futs := []);
      TakenSound(executors[q], WaiterAt(waiting, q), true);
      UpdateSound(executors, waiting, q, IDLE, q, e, waiting, Flight(cmds, futs, 0));
      FuturesSame(executors, q, e);
      executors := executors[q := e];
      turn, flight := q, Flight(cmds, futs, 0);
      GivenSame(old(Seen()), Seen(), q);
    }

    /** Moves the commands out of a queue. */
    method TakeCommands(q: Queue) returns (cmds: seq<nat>)
      requires Valid() && flight == IDLE && !Paired(q)
      modifies this`executors, this`turn, this`flight
      ensures Valid() && turn == q && flight == Flight(cmds, [], 0)
      ensures Quiet(old(Seen()), Seen(), q) && SamePlans(old(Seen()), Seen()) && executors[q].cmds == []
    {
      hide Sound, AllSound, Known, Futures;
      cmds := executors[q].cmds;
      IdleTurn(executors, waiting, turn, q);
      SoundHere(executors, waiting, IDLE, q);
      var e := executors[q].(cmds := []);
      CommandsTakenSound(executors[q], WaiterAt(waiting, q));
      UpdateSound(executors, waiting, q, IDLE, q, e, waiting, Flight(cmds, [], 0));
      FuturesSame(executors, q, e);
      executors := executors[q := e];
      turn, flight := q, Flight(cmds, [], 0);
      GivenSame(old(Seen()), Seen(), q);
    }

    /** Moves the futures out of a queue whose commands have all been run. */
    method TakeFutures(q: Queue) returns (futs: seq<nat>)
      requires Valid() && turn == q && flight == IDLE && !Paired(q) && executors[q].cmds == []
      modifies this`executors, this`flight
      ensures Valid() && flight.cmds == [] && flight.futs == futs && forall k :: 0 <= k < |futs| ==> futs[k] < flight.ready
      ensures Quiet(old(Seen()), Seen(), q) && SamePlans(old(Seen()), Seen()) && Empty(executors[q])
    {
      hide Sound, AllSound, Known, Futures;
      futs := executors[q].futs;
      SoundHere(executors, waiting, IDLE, q);
      FuturesTakenSound(executors[q], WaiterAt(waiting, q));
      LineIsKnown(executors[q], WaiterAt(waiting, q));
      var e := executors[q].(futs := []);
      ghost var fl := Flight([], futs, |e.promises|);
      UpdateSound(executors, waiting, q, IDLE, q, e, waiting, fl);
      FuturesSame(executors, q, e);
      executors := executors[q := e];
      flight := fl;
      GivenSame(old(Seen()), Seen(), q);
    }

    /** Runs the next command in flight. */
    method RunCommand(q: Queue, cmd: nat)
      requires Valid() && turn == q && flight.cmds != [] && flight.cmds[0] == cmd
      modifies this`executors, this`flight
      ensures Valid() && flight == old(flight.(cmds := flight.cmds[1..]))
      ensures Quiet(old(Seen()), Seen(), q) && SamePlans(old(Seen()), Seen())
      ensures executors[q] == Ran(old(executors)[q], cmd)
    {
      hide Sound, AllSound, Known, Futures;
      SoundHere(executors, waiting, flight, q);
      var e := Ran(executors[q], cmd);
      RanSound(executors[q], flight, WaiterAt(waiting, q), Paired(q));
      UpdateSound(executors, waiting, q, flight, q, e, waiting, flight.(cmds := flight.cmds[1..]));
      FuturesSame(executors, q, e);
      executors := executors[q := e];
      flight := flight.(cmds := flight.cmds[1..]);
      GivenSame(old(Seen()), Seen(), q);
    }

    /** One event of robot, turtle or drawer: the command and then its future. */
    method HandleEvent(q: Queue, cmd: nat, fut: nat, ghost start: View, ghost n: nat)
      requires Valid() && turn == q && Paired(q) && |flight.cmds| == |flight.futs| > 0
      requires flight.cmds[0] == cmd && flight.futs[0] == fut
      requires Passing(start, Seen(), q, n)
      modifies this
      ensures Valid() && turn == q
      ensures flight == old(flight.(cmds := flight.cmds[1..], futs := flight.futs[1..]))
      ensures Passing(start, Seen(), q, n + 1)
    {
      hide Sound, AllSound, Known, Futures, SamePlans;
      RunCommand(q, cmd);
      PassOn(start, old(Seen()), Seen(), q, n, n);
      ghost var ran := Seen();
      Resume(q, fut);
      PassOn(start, ran, Seen(), q, n, n + 1);
    }

    /** The turn of robot, turtle or drawer: each command is followed by its future. */
    method ProcessPaired(q: Queue) returns (processed: nat)
      requires Valid() && flight == IDLE && Paired(q) && (waiting.None? ==> todo == [])
      modifies this
      ensures Valid() && flight == IDLE && Passed(old(Seen()), Seen(), q, processed)
    {
      hide Sound, AllSound, Known, Futures, Passing;
      var cmds, futs := TakeEvents(q);
      var i := 0;
      while i < |cmds|
        invariant Valid() && turn == q && i <= |cmds| == |futs| && flight == Flight(cmds[i..], futs[i..], 0)
        invariant Passing(old(Seen()), Seen(), q, i)
      {
        HandleEvent(q, cmds[i], futs[i], old(Seen()), i);
        i := i + 1;
      }
      assert flight == IDLE;
      PassEnds(old(Seen()), Seen(), q, i, i, turn);
      processed := |cmds|;
    }

    /** All commands of painter or io. */
    method RunCommands(q: Queue, cmds: seq<nat>)
      requires Valid() && turn == q && flight == Flight(cmds, [], 0) && executors[q].cmds == []
      modifies this
      ensures Valid() && turn == q && flight == IDLE && executors[q].cmds == []
      ensures Quiet(old(Seen()), Seen(), q) && SamePlans(old(Seen()), Seen())
    {
      hide Sound, AllSound, Known, Futures, SamePlans;
      GivenSame(Seen(), Seen(), q);
      var i := 0;
      while i < |cmds|
        invariant Valid() && turn == q && i <= |cmds| && flight == Flight(cmds[i..], [], 0)
        invariant Quiet(old(Seen()), Seen(), q) && SamePlans(old(Seen()), Seen()) && executors[q].cmds == []
      {
        ghost var before := Seen();
        RunCommand(q, cmds[i]);
        SamePlansTwice(old(Seen()), before, Seen());
        i := i + 1;
      }
    }

    /** All futures of painter or io. */
    method ResumeFutures(q: Queue, futs: seq<nat>, ghost start: View)
      requires Valid() && turn == q && !Paired(q) && flight.cmds == [] && flight.futs == futs
      requires forall k :: 0 <= k < |futs| ==> futs[k] < flight.ready
      requires Passing(start, Seen(), q, 0)
      modifies this
      ensures Valid() && flight == IDLE && Passed(start, Seen(), q, |futs|)
    {
      hide Sound, AllSound, Known, Futures, SamePlans;
      var i := 0;
      while i < |futs|
        invariant Valid() && turn == q && i <= |futs| && flight.cmds == [] && flight.futs == futs[i..]
        invariant forall k :: i <= k < |futs| ==> futs[k] < flight.ready
        invariant Passing(start, Seen(), q, i)
      {
        ghost var before := Seen();
        Resume(q, futs[i]);
        PassOn(start, before, Seen(), q, i, i + 1);
        i := i + 1;
      }
      Landed(executors, waiting, q, flight);
      flight := IDLE;
      PassEnds(start, Seen(), q, i, i, q);
    }

    /** The turn of painter or io: all commands, and then all futures. */
    method ProcessSplit(q: Queue) returns (calls: nat, futures: nat)
      requires Valid() && flight == IDLE && !Paired(q) && (waiting.None? ==> todo == [])
      modifies this
      ensures Valid() && flight == IDLE && Passed(old(Seen()), Seen(), q, futures)
    {
      hide Sound, AllSound, Known, Futures, SamePlans, Passed;
      var cmds := TakeCommands(q);
      ghost var taken := Seen();
      RunCommands(q, cmds);
      SamePlansTwice(old(Seen()), taken, Seen());
      ghost var ran := Seen();
      var futs := TakeFutures(q);
      SamePlansTwice(old(Seen()), ran, Seen());
      ResumeFutures(q, futs, old(Seen()));
      calls, futures := |cmds|, |futs|;
    }

    /** One polling pass over all queues. */
    method ProcessAsyncRuntimeEvents() returns (processed: nat)
      requires Valid() && flight == IDLE && (waiting.None? ==> todo == [])
      modifies this
      ensures Valid() && flight == IDLE && (waiting.None? ==> todo == [])
      ensures SamePlans(old(Seen()), Seen())
      ensures old(waiting.Some?) ==> processed > 0 && Effort(Seen()) < old(Effort(Seen()))
      ensures old(waiting.None?) ==> waiting.None? && forall q :: Empty(executors[q])
    {
      hide Sound, AllSound, Known, Futures, SamePlans, Effort, Passed, Valid, Empty;
      ghost var v0 := Seen();
      var robot := ProcessPaired(Robot);
      ghost var v1 := Seen();
      StillEnded(v0, v1, Robot, robot);
      var turtle := ProcessPaired(Turtle);
      ghost var v2 := Seen();
      StillEnded(v1, v2, Turtle, turtle);
      var drawer := ProcessPaired(Drawer);
      ghost var v3 := Seen();
      StillEnded(v2, v3, Drawer, drawer);
      var painterCalls, painter := ProcessSplit(Painter);
      ghost var v4 := Seen();
      StillEnded(v3, v4, Painter, painter);
      var _, io := ProcessSplit(Io);
      StillEnded(v4, Seen(), Io, io);
      FullPass(v0, v1, v2, v3, v4, Seen(), [robot, turtle, drawer, painter, io]);
      processed := robot + turtle + drawer + (painterCalls + painter) + io;
    }

    /**
     Runs a program to its end. The assertion of the polling loop holds, polling ends, every command of the
     program has been run once and in the order of its queue, every future is complete, and each wait has
     ended once.
     */
    method DoEvalRaw(program: seq<Action>)
      requires Valid() && flight == IDLE && waiting.None? && todo == [] && Known(program, Futures(executors))
      modifies this
      ensures Valid() && flight == IDLE && waiting.None? && todo == []
      ensures forall q :: Empty(executors[q])
      ensures forall q :: executors[q].run == old(executors)[q].given + Commands(program, q)
      ensures forall q, f :: 0 <= f < |executors[q].promises| ==> executors[q].promises[f].done
      ensures suspends == resumes
    {
      hide Sound, AllSound, Known, Futures, SamePlans, Effort;
      todo := program;
      ghost var start := Seen();
      RunProgram();
      while waiting.Some?
        invariant Valid() && flight == IDLE && (waiting.None? ==> todo == [])
        invariant SamePlans(start, Seen())
        decreases Effort(Seen())
      {
        ghost var before := Seen();
        var processed := ProcessAsyncRuntimeEvents();
        assert processed > 0;
        SamePlansTwice(start, before, Seen());
      }
      ghost var before := Seen();
      var _ := ProcessAsyncRuntimeEvents();
      SamePlansTwice(start, before, Seen());
      RunEnded(start, Seen(), turn);
    }
  }

  /** What a queue is given by one action is taken from what it will be given. */
  lemma StepKeepsPlan(a: View, b: View, q: Queue)
    requires a.todo != [] && b.todo == a.todo[1..]
    requires match a.todo[0]
             case Fire(cmd) => b.executors == a.executors[Painter := Fired(a.executors[Painter], cmd)]
             case Call(p, cmd) => b.executors == a.executors[p := Enqueued(a.executors[p], cmd)]
             case Await(_) => forall p :: b.executors[p].given == a.executors[p].given
    ensures Plan(b, q) == Plan(a, q)
  {
  }
}
