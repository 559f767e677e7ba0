/**
 The command queue of one executor, the futures its callers wait for, and the steps between the
 states of such a queue. A future is known by its number among the futures of its queue.
 */
module EventQueues {
  datatype Option<T> = None | Some(value: T)

  datatype Queue = Robot | Turtle | Drawer | Painter | Io

  /** Robot, turtle and drawer keep each command with its future; painter and io keep two lists. */
  predicate Paired(q: Queue) { q.Robot? || q.Turtle? || q.Drawer? }

  /** An external promise, the command whose end it announces, and whether a caller waits for it. */
  datatype Promise = Promise(command: nat, done: bool, caller: bool)

  /** `given` and `run` record the commands that the queue has received and has run, in order. */
  datatype Executor = Executor(
    cmds: seq<nat>, futs: seq<nat>, promises: seq<Promise>, given: seq<nat>, run: seq<nat>)

  /** What has been moved out of a queue; the first `ready` futures are for commands already run. */
  datatype Flight = Flight(cmds: seq<nat>, futs: seq<nat>, ready: nat)

  const IDLE := Flight([], [], 0)

  // ---------- steps ----------

  /** A command that nobody can wait for. */
  function Fired(e: Executor, cmd: nat): Executor {
    e.(cmds := e.cmds + [cmd], given := e.given + [cmd])
  }

  /** A command with a new future. */
  function Enqueued(e: Executor, cmd: nat): Executor {
    Executor(e.cmds + [cmd], e.futs + [|e.promises|],
             e.promises + [Promise(|e.given|, false, false)], e.given + [cmd], e.run)
  }

  function Awaited(e: Executor, f: nat): Executor
    requires f < |e.promises|
  {
    e.(promises := e.promises[f := e.promises[f].(caller := true)])
  }

  function Ran(e: Executor, cmd: nat): Executor {
    e.(run := e.run + [cmd])
  }

  /** The future has its result and its caller has been taken off. */
  function Completed(e: Executor, f: nat): Executor
    requires f < |e.promises|
  {
    e.(promises := e.promises[f := e.promises[f].(done := true, caller := false)])
  }

  // ---------- the invariant of one queue ----------

  /** The futures are the last `|s|` of `n`, in the order they were made. */
  predicate LastOf(s: seq<nat>, n: nat) {
    |s| <= n && forall k :: 0 <= k < |s| ==> s[k] == n - |s| + k
  }

  /** Exactly the first `n` futures are complete. */
  predicate DoneUpTo(ps: seq<Promise>, n: int) {
    forall f :: 0 <= f < |ps| ==> (ps[f].done <==> f < n)
  }

  /** No future is complete before its command has been run; the first `ready` could be. */
  predicate CommandsFirst(ps: seq<Promise>, given: nat, run: nat, ready: nat) {
    ready <= |ps| &&
    forall f :: 0 <= f < |ps| ==> ps[f].command < given && (ps[f].done || f < ready ==> ps[f].command < run)
  }

  /** The one caller is registered with the future it waits for, which is still open. */
  predicate CallerIs(ps: seq<Promise>, waiter: Option<nat>) {
    && (forall f :: 0 <= f < |ps| ==> (ps[f].caller <==> waiter == Some(f)))
    && (waiter.Some? ==> waiter.value < |ps| && !ps[waiter.value].done)
  }

  /** Each command has its own future. */
  predicate OneToOne(e: Executor) {
    && |e.cmds| == |e.futs| && |e.given| == |e.promises|
    && forall f :: 0 <= f < |e.promises| ==> e.promises[f].command == f
  }

  predicate Sound(e: Executor, fl: Flight, waiter: Option<nat>, paired: bool) {
    && e.given == e.run + fl.cmds + e.cmds
    && LastOf(fl.futs + e.futs, |e.promises|)
    && DoneUpTo(e.promises, |e.promises| - |fl.futs| - |e.futs|)
    && CommandsFirst(e.promises, |e.given|, |e.run|, fl.ready)
    && CallerIs(e.promises, waiter)
    && (paired ==> OneToOne(e))
  }

  lemma FiredSound(e: Executor, fl: Flight, waiter: Option<nat>, cmd: nat)
    requires Sound(e, fl, waiter, false)
    ensures Sound(Fired(e, cmd), fl, waiter, false)
  {
    assert e.given + [cmd] == e.run + fl.cmds + (e.cmds + [cmd]);
  }

  lemma EnqueuedSound(e: Executor, fl: Flight, waiter: Option<nat>, paired: bool, cmd: nat)
    requires Sound(e, fl, waiter, paired)
    ensures Sound(Enqueued(e, cmd), fl, waiter, paired)
  {
    assert e.given + [cmd] == e.run + fl.cmds + (e.cmds + [cmd]);
    assert fl.futs + (e.futs + [|e.promises|]) == fl.futs + e.futs + [|e.promises|];
  }

  lemma AwaitedSound(e: Executor, fl: Flight, paired: bool, f: nat)
    requires Sound(e, fl, None, paired) && f < |e.promises| && !e.promises[f].done
    ensures Sound(Awaited(e, f), fl, Some(f), paired)
  {
  }

  /** Moving everything out at once, as robot, turtle and drawer do. */
  lemma TakenSound(e: Executor, waiter: Option<nat>, paired: bool)
    requires Sound(e, IDLE, waiter, paired)
    ensures Sound(e.(cmds := [], futs := []), Flight(e.cmds, e.futs, 0), waiter, paired)
  {
    assert e.run + [] + e.cmds == e.run + e.cmds + [];
    assert [] + e.futs == e.futs + [];
  }

  lemma EventsMatch(e: Executor, waiter: Option<nat>)
    requires Sound(e, IDLE, waiter, true)
    ensures |e.cmds| == |e.futs|
  {
  }

  /** Moving the commands out first, as painter and io do. */
  lemma CommandsTakenSound(e: Executor, waiter: Option<nat>)
    requires Sound(e, IDLE, waiter, false)
    ensures Sound(e.(cmds := []), Flight(e.cmds, [], 0), waiter, false)
  {
    assert e.run + [] + e.cmds == e.run + e.cmds + [];
  }

  /** By then no command is left, so every future of the list could be completed. */
  lemma FuturesTakenSound(e: Executor, waiter: Option<nat>)
    requires Sound(e, IDLE, waiter, false) && e.cmds == []
    ensures Sound(e.(futs := []), Flight([], e.futs, |e.promises|), waiter, false)
  {
    assert [] + e.futs == e.futs + [];
    assert e.run + [] + [] == e.run;
  }

  lemma LineIsKnown(e: Executor, waiter: Option<nat>)
    requires Sound(e, IDLE, waiter, false)
    ensures forall k :: 0 <= k < |e.futs| ==> e.futs[k] < |e.promises|
  {
    assert [] + e.futs == e.futs;
  }

  lemma RanSound(e: Executor, fl: Flight, waiter: Option<nat>, paired: bool)
    requires Sound(e, fl, waiter, paired) && fl.cmds != []
    ensures Sound(Ran(e, fl.cmds[0]), fl.(cmds := fl.cmds[1..]), waiter, paired)
  {
    assert e.run + fl.cmds + e.cmds == e.run + [fl.cmds[0]] + fl.cmds[1..] + e.cmds;
  }

  /** The next future in flight is the first that is not complete. */
  lemma NextFuture(e: Executor, fl: Flight, waiter: Option<nat>, paired: bool)
    requires Sound(e, fl, waiter, paired) && fl.futs != []
    ensures fl.futs[0] == |e.promises| - |fl.futs| - |e.futs| && fl.futs[0] < |e.promises|
    ensures !e.promises[fl.futs[0]].done
  {
    assert (fl.futs + e.futs)[0] == fl.futs[0];
  }

  /** It may be completed when its command has been run: it was ready when taken, or it is the one just run. */
  predicate MayComplete(fl: Flight, paired: bool) {
    fl.futs != [] && if paired then |fl.cmds| + 1 == |fl.futs| else fl.cmds == []
  }

  lemma LastOfTail(a: seq<nat>, b: seq<nat>, n: nat)
    requires LastOf(a + b, n) && a != []
    ensures LastOf(a[1..] + b, n)
  {
    assert forall k :: 0 <= k < |a[1..] + b| ==> (a[1..] + b)[k] == (a + b)[k + 1];
  }

  lemma NextIsThere(fl: Flight, paired: bool)
    requires MayComplete(fl, paired)
    ensures fl.futs != []
  {
  }

  lemma CompletedSound(e: Executor, fl: Flight, waiter: Option<nat>, paired: bool)
    requires Sound(e, fl, waiter, paired) && MayComplete(fl, paired)
    requires !paired ==> fl.futs[0] < fl.ready
    ensures fl.futs[0] < |e.promises|
    ensures Sound(Completed(e, fl.futs[0]), fl.(futs := fl.futs[1..]),
                  if waiter == Some(fl.futs[0]) then None else waiter, paired)
  {
    NextFuture(e, fl, waiter, paired);
    LastOfTail(fl.futs, e.futs, |e.promises|);
    assert |e.given| == |e.run| + |fl.cmds| + |e.cmds|;
  }

  lemma CallerWaits(e: Executor, fl: Flight, waiter: Option<nat>, paired: bool, f: nat)
    requires Sound(e, fl, waiter, paired) && f < |e.promises|
    ensures e.promises[f].caller <==> waiter == Some(f)
  {
  }

  /** Somebody waits only while the queue holds a future for them, so polling always finds an event. */
  lemma WaiterHasEvent(e: Executor, fl: Flight, waiter: Option<nat>, paired: bool)
    requires Sound(e, fl, waiter, paired) && waiter.Some?
    ensures waiter.value in fl.futs + e.futs
  {
    var s := fl.futs + e.futs;
    assert s[waiter.value - (|e.promises| - |s|)] == waiter.value;
  }

  /** In an empty queue everything has been run and completed, and nobody waits. */
  lemma DrainedMeansAllRun(e: Executor, waiter: Option<nat>, paired: bool)
    requires Sound(e, IDLE, waiter, paired) && e.cmds == [] && e.futs == []
    ensures e.run == e.given && waiter.None?
    ensures forall f :: 0 <= f < |e.promises| ==> e.promises[f].done
  {
    assert e.run + [] + [] == e.run;
  }
}
