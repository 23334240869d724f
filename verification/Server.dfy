/**
 * The promise chain that serializes handlers and state reads. Each call of
 * `serialize` makes two promises: `run`, which its caller waits on, and `tail`,
 * which swallows the outcome and becomes the new queue. A reaction may fire at
 * any moment after the promise it hangs on has settled.
 */
module Server {
  datatype Settled = Pending | Fulfilled | Rejected

  /** What the queue field may hold: the promise it starts with, or the tail made by some call. */
  datatype Promise = Idle | Tail(call: nat)

  /** One call of serialize: the promise its function waits for, and how far it has got. */
  datatype Call = Call(after: Promise, started: bool, run: Settled, tail: Settled)

  datatype Note = Started(call: nat) | Ended(call: nat, ok: bool)

  datatype Loop = Loop(calls: seq<Call>, queue: Promise, log: seq<Note>)

  const IDLE: Loop := Loop([], Idle, [])

  datatype Event =
    | Submit                           // serialize(fn) is called
    | Start(call: nat)                 // the reaction fn of run fires
    | Complete(call: nat, ok: bool)    // what fn returned settles, and run with it
    | Drop(call: nat)                  // the reaction of tail fires

  function State(l: Loop, p: Promise): Settled {
    if p.Idle? then Fulfilled else if p.call < |l.calls| then l.calls[p.call].tail else Pending
  }

  predicate CanStart(l: Loop, k: nat) {
    k < |l.calls| && !l.calls[k].started && State(l, l.calls[k].after) != Pending
  }

  predicate Running(l: Loop, k: nat) {
    k < |l.calls| && l.calls[k].started && l.calls[k].run == Pending
  }

  predicate CanDrop(l: Loop, k: nat) {
    k < |l.calls| && l.calls[k].run != Pending && l.calls[k].tail == Pending
  }

  predicate Enabled(l: Loop, e: Event) {
    match e
    case Submit => true
    case Start(k) => CanStart(l, k)
    case Complete(k, _) => Running(l, k)
    case Drop(k) => CanDrop(l, k)
  }

  function Serialize(l: Loop): Loop {
    l.(calls := l.calls + [Call(l.queue, false, Pending, Pending)], queue := Tail(|l.calls|))
  }

  function Next(l: Loop, e: Event): Loop {
    if !Enabled(l, e) then l
    else
      match e
      case Submit => Serialize(l)
      case Start(k) => l.(calls := l.calls[k := l.calls[k].(started := true)], log := l.log + [Started(k)])
      case Complete(k, ok) =>
        l.(calls := l.calls[k := l.calls[k].(run := if ok then Fulfilled else Rejected)], log := l.log + [Ended(k, ok)])
      case Drop(k) => l.(calls := l.calls[k := l.calls[k].(tail := Fulfilled)])
  }

  function Run(events: seq<Event>): Loop {
    if events == [] then IDLE else Next(Run(events[..|events| - 1]), events[|events| - 1])
  }

  // ------------------------------------------------------------ the chain's shape

  function LastTail(n: nat): Promise {
    if n == 0 then Idle else Tail(n - 1)
  }

  predicate Linked(l: Loop) {
    && l.queue == LastTail(|l.calls|)
    && forall k :: 0 <= k < |l.calls| ==> l.calls[k].after == LastTail(k)
  }

  predicate Done(c: Call) {
    c.started && c.run != Pending && c.tail == Fulfilled
  }

  predicate Waiting(c: Call) {
    !c.started && c.run == Pending && c.tail == Pending
  }

  /** Calls before m are through, calls after m wait, and call m is on its way. */
  predicate Front(l: Loop, m: nat) {
    && m <= |l.calls|
    && (forall k :: 0 <= k < m ==> Done(l.calls[k]))
    && (forall k :: m < k < |l.calls| ==> Waiting(l.calls[k]))
    && (m < |l.calls| ==> l.calls[m].tail == Pending && (!l.calls[m].started ==> l.calls[m].run == Pending))
  }

  /** How far call m has got: not started, running, or ended. */
  function Stage(l: Loop, m: nat): (n: nat)
    ensures n <= 2
  {
    if m >= |l.calls| || !l.calls[m].started then 0 else if l.calls[m].run == Pending then 1 else 2
  }

  predicate NotesOf(l: Loop, k: nat)
    requires k < |l.calls| && 2 * k + 1 < |l.log|
  {
    l.log[2 * k] == Started(k) && l.log[2 * k + 1] == Ended(k, l.calls[k].run == Fulfilled)
  }

  /** The log holds start and end of every call before m, in order, and the stages of call m. */
  predicate Logged(l: Loop, m: nat)
    requires m <= |l.calls|
  {
    && |l.log| == 2 * m + Stage(l, m)
    && (forall k :: 0 <= k < m ==> NotesOf(l, k))
    && (Stage(l, m) > 0 ==> l.log[2 * m] == Started(m))
    && (Stage(l, m) == 2 ==> NotesOf(l, m))
  }

  predicate At(l: Loop, m: nat) {
    Linked(l) && Front(l, m) && Logged(l, m)
  }

  lemma NextKeeps(l: Loop, e: Event, m: nat) returns (n: nat)
    requires At(l, m)
    ensures At(Next(l, e), n) && n == if e.Drop? && Enabled(l, e) then m + 1 else m
  {
    n := if e.Drop? && Enabled(l, e) then m + 1 else m;
    if Enabled(l, e) {
      match e
      case Submit => SubmitKeeps(l, m);
      case Start(k) => OnlyFront(l, m, k); StartKeeps(l, m);
      case Complete(k, ok) => OnlyFront(l, m, k); CompleteKeeps(l, m, ok);
      case Drop(k) => OnlyFront(l, m, k); DropKeeps(l, m);
    }
  }

  /** Whatever is enabled concerns the call at the front. */
  lemma OnlyFront(l: Loop, m: nat, k: nat)
    requires At(l, m)
    ensures CanStart(l, k) || Running(l, k) || CanDrop(l, k) ==> k == m && m < |l.calls|
  {
    if k < m {
      assert Done(l.calls[k]);
    } else if m < k < |l.calls| {
      assert Waiting(l.calls[k]) && l.calls[k].after == Tail(k - 1);
      assert State(l, Tail(k - 1)) == l.calls[k - 1].tail;
    }
  }

  lemma SubmitKeeps(l: Loop, m: nat)
    requires At(l, m)
    ensures At(Serialize(l), m)
  {
    var n := Serialize(l);
    assert forall k :: 0 <= k < |l.calls| ==> n.calls[k] == l.calls[k];
    assert forall k :: 0 <= k < m ==> NotesOf(l, k) ==> NotesOf(n, k);
  }

  lemma StartKeeps(l: Loop, m: nat)
    requires At(l, m) && CanStart(l, m)
    ensures At(Next(l, Start(m)), m)
  {
    var n := Next(l, Start(m));
    assert forall k :: 0 <= k < m ==> NotesOf(l, k) ==> NotesOf(n, k);
  }

  lemma CompleteKeeps(l: Loop, m: nat, ok: bool)
    requires At(l, m) && Running(l, m)
    ensures At(Next(l, Complete(m, ok)), m)
  {
    var n := Next(l, Complete(m, ok));
    assert forall k :: 0 <= k < m ==> NotesOf(l, k) ==> NotesOf(n, k);
  }

  lemma DropKeeps(l: Loop, m: nat)
    requires At(l, m) && CanDrop(l, m)
    ensures At(Next(l, Drop(m)), m + 1)
  {
    var n := Next(l, Drop(m));
    assert forall k :: 0 <= k <= m ==> NotesOf(l, k) ==> NotesOf(n, k);
  }

  lemma {:induction false} Reached(events: seq<Event>) returns (m: nat)
    ensures At(Run(events), m)
  {
    if events == [] {
      m := 0;
    } else {
      var before := Reached(events[..|events| - 1]);
      m := NextKeeps(Run(events[..|events| - 1]), events[|events| - 1], before);
    }
  }

  // --------------------------------------------------------------- main results

  /**
   * FIFO mutual exclusion, in every interleaving of submissions, reactions,
   * completions and rejections: the log reads start 0, end 0, start 1, end 1, ...
   * So functions start in the order of submission, each once, none before the one
   * ahead of it has ended; and at most one is running.
   */
  lemma FifoMutex(events: seq<Event>)
    ensures var log := Run(events).log;
            forall k: nat ::
              && (2 * k < |log| ==> log[2 * k] == Started(k))
              && (2 * k + 1 < |log| ==> log[2 * k + 1].Ended? && log[2 * k + 1].call == k)
    ensures forall i: nat, j: nat :: Running(Run(events), i) && Running(Run(events), j) ==> i == j
  {
    var m := Reached(events);
    var l := Run(events);
    forall k: nat
      ensures 2 * k < |l.log| ==> l.log[2 * k] == Started(k)
      ensures 2 * k + 1 < |l.log| ==> l.log[2 * k + 1].Ended? && l.log[2 * k + 1].call == k
    {
      if k < m {
        assert NotesOf(l, k);
      }
    }
    forall i: nat, j: nat | Running(l, i) && Running(l, j) ensures i == j {
      OnlyFront(l, m, i);
      OnlyFront(l, m, j);
    }
  }

  /** The end of a function is logged at its own place and nowhere else. */
  lemma EndsAtOdd(events: seq<Event>, i: nat)
    requires i < |Run(events).log|
    ensures Run(events).log[i].Ended? ==> i == 2 * Run(events).log[i].call + 1
  {
    FifoMutex(events);
    var log, half := Run(events).log, i / 2;
    assert i == 2 * half || i == 2 * half + 1;
    assert 2 * half < |log| ==> log[2 * half] == Started(half);
    assert 2 * half + 1 < |log| ==> log[2 * half + 1].Ended? && log[2 * half + 1].call == half;
  }

  /**
   * A rejection reaches its own caller only. The promise the k-th caller holds
   * settles exactly when the k-th function ends, and the same way; no promise the
   * queue ever held is rejected.
   */
  lemma RejectionIsPrivate(events: seq<Event>, k: nat)
    requires k < |Run(events).calls|
    ensures var l := Run(events);
            && (l.calls[k].run == Rejected <==> Ended(k, false) in l.log)
            && (l.calls[k].run == Fulfilled <==> Ended(k, true) in l.log)
            && l.calls[k].tail != Rejected
  {
    var m := Reached(events);
    var l := Run(events);
    FifoMutex(events);
    if k < m || (k == m && Stage(l, m) == 2) {
      assert NotesOf(l, k);
      assert l.log[2 * k + 1] == Ended(k, l.calls[k].run == Fulfilled);
    }
    forall ok | Ended(k, ok) in l.log ensures 2 * k + 1 < |l.log| && l.log[2 * k + 1] == Ended(k, ok) {
      var i :| 0 <= i < |l.log| && l.log[i] == Ended(k, ok);
      EndsAtOdd(events, i);
    }
    if k > m {
      assert Waiting(l.calls[k]);
    }
  }

  /** The i-th turn settles what the k-th function returned, while that function runs. */
  predicate EndsAt(events: seq<Event>, i: nat, k: nat, ok: bool) {
    && i < |events| && events[i] == Complete(k, ok)
    && var l := Run(events[..i]); k < |l.calls| && l.calls[k].started && l.calls[k].run == Pending
  }

  /** The i-th turn starts the k-th function: it has not started, and the tail of the call ahead has settled. */
  predicate StartsAt(events: seq<Event>, i: nat, k: nat) {
    && i < |events| && events[i] == Start(k)
    && var l := Run(events[..i]);
       k < |l.calls| && !l.calls[k].started && (k == 0 || l.calls[k - 1].tail != Pending)
  }

  /** The log is the history of the functions: what is noted happened, with this outcome, and what happened is noted. */
  lemma {:induction false} NotedExactlyWhen(events: seq<Event>, k: nat, ok: bool)
    ensures Ended(k, ok) in Run(events).log <==> exists i: nat :: EndsAt(events, i, k, ok)
    ensures Started(k) in Run(events).log <==> exists i: nat :: StartsAt(events, i, k)
    decreases |events|
  {
    if events != [] {
      var init, last := events[..|events| - 1], |events| - 1;
      NotedExactlyWhen(init, k, ok);
      forall i: nat
        ensures EndsAt(events, i, k, ok) <==> EndsAt(init, i, k, ok) || (i == last && EndsAt(events, i, k, ok))
      {
        Earlier(events, i, k, ok);
      }
      forall i: nat
        ensures StartsAt(events, i, k) <==> StartsAt(init, i, k) || (i == last && StartsAt(events, i, k))
      {
        Earlier(events, i, k, ok);
      }
      StartEnabled(init, k);
      LastNoted(events, k, ok);
    }
  }

  lemma Earlier(events: seq<Event>, i: nat, k: nat, ok: bool)
    requires events != []
    ensures var init := events[..|events| - 1];
            && (i < |init| ==> (EndsAt(events, i, k, ok) <==> EndsAt(init, i, k, ok)))
            && (i < |init| ==> (StartsAt(events, i, k) <==> StartsAt(init, i, k)))
            && (i >= |init| ==> !EndsAt(init, i, k, ok) && !StartsAt(init, i, k))
  {
    if i < |events| - 1 {
      assert events[..|events| - 1][..i] == events[..i];
    }
  }

  lemma StartEnabled(events: seq<Event>, k: nat)
    ensures var l := Run(events);
            CanStart(l, k) <==> k < |l.calls| && !l.calls[k].started && (k == 0 || l.calls[k - 1].tail != Pending)
  {
    var m := Reached(events);
  }

  /** The last turn is noted if it is one of the two, and nothing else is noted by it. */
  lemma LastNoted(events: seq<Event>, k: nat, ok: bool)
    requires events != []
    requires var l := Run(events[..|events| - 1]);
             CanStart(l, k) <==> k < |l.calls| && !l.calls[k].started && (k == 0 || l.calls[k - 1].tail != Pending)
    ensures var log, n := Run(events[..|events| - 1]).log, |events| - 1;
            && (Ended(k, ok) in Run(events).log <==> Ended(k, ok) in log || EndsAt(events, n, k, ok))
            && (Started(k) in Run(events).log <==> Started(k) in log || StartsAt(events, n, k))
  {
  }

  /** What is left to happen before every submitted function has ended and been dropped. */
  function Remaining(l: Loop, m: nat): int {
    3 * (|l.calls| - m) - Stage(l, m)
  }

  /**
   * The queue never wedges, whatever rejects: from every reachable state the work
   * already submitted runs to its end, with any outcomes the functions choose, in
   * as many turns as are left; then each function has run exactly once.
   */
  lemma {:induction false} Drains(events: seq<Event>, outcome: nat -> bool) returns (turns: seq<Event>)
    ensures forall i :: 0 <= i < |turns| ==> turns[i] != Submit
    ensures |turns| <= 3 * |Run(events).calls|
    ensures var l := Run(events + turns);
            && |l.calls| == |Run(events).calls| && |l.log| == 2 * |l.calls|
            && forall k :: 0 <= k < |l.calls| ==> Done(l.calls[k])
  {
    var m := Reached(events);
    turns := DrainsFrom(events, outcome, m);
  }

  /** The next stage of the call at the front; it is always enabled. */
  function NextStage(l: Loop, m: nat, outcome: nat -> bool): Event {
    if Stage(l, m) == 0 then Start(m) else if Stage(l, m) == 1 then Complete(m, outcome(m)) else Drop(m)
  }

  lemma Advance(l: Loop, m: nat, outcome: nat -> bool) returns (n: nat)
    requires At(l, m) && m < |l.calls|
    ensures At(Next(l, NextStage(l, m, outcome)), n)
    ensures Remaining(Next(l, NextStage(l, m, outcome)), n) == Remaining(l, m) - 1
    ensures |Next(l, NextStage(l, m, outcome)).calls| == |l.calls|
  {
    assert m > 0 ==> Done(l.calls[m - 1]);
    assert l.calls[m].after == LastTail(m);
    assert Enabled(l, NextStage(l, m, outcome));
    n := NextKeeps(l, NextStage(l, m, outcome), m);
    if n == m + 1 && n < |l.calls| {
      assert Waiting(l.calls[n]);
    }
  }

  lemma {:induction false} DrainsFrom(events: seq<Event>, outcome: nat -> bool, m: nat) returns (turns: seq<Event>)
    requires At(Run(events), m)
    ensures forall i :: 0 <= i < |turns| ==> turns[i] != Submit
    ensures |turns| == Remaining(Run(events), m)
    ensures At(Run(events + turns), |Run(events).calls|)
    ensures |Run(events + turns).calls| == |Run(events).calls|
    decreases Remaining(Run(events), m)
  {
    var l := Run(events);
    if m == |l.calls| {
      turns := [];
      assert events + turns == events;
    } else {
      var e := NextStage(l, m, outcome);
      var n := Advance(l, m, outcome);
      assert (events + [e])[..|events|] == events;
      assert Run(events + [e]) == Next(l, e);
      var rest := DrainsFrom(events + [e], outcome, n);
      turns := [e] + rest;
      assert events + turns == (events + [e]) + rest;
    }
  }

  /** Turns that can each be taken when it is taken, with no new submission among them. */
  ghost predicate Scheduled(events: seq<Event>, turns: seq<Event>) {
    forall k :: 0 <= k < |turns| ==> turns[k] != Submit && Enabled(Run(events + turns[..k]), turns[k])
  }

  lemma TurnLeaves(l: Loop, e: Event, m: nat) returns (n: nat)
    requires At(l, m) && e != Submit && Enabled(l, e)
    ensures At(Next(l, e), n) && |Next(l, e).calls| == |l.calls|
    ensures Remaining(Next(l, e), n) == Remaining(l, m) - 1
  {
    OnlyFront(l, m, e.call);
    n := NextKeeps(l, e, m);
    if e.Drop? && n < |l.calls| {
      assert Waiting(l.calls[n]);
    }
  }

  lemma RunLast(events: seq<Event>, turns: seq<Event>)
    requires turns != []
    ensures Run(events + turns) == Next(Run(events + turns[..|turns| - 1]), turns[|turns| - 1])
  {
    assert (events + turns)[..|events + turns| - 1] == events + turns[..|turns| - 1];
  }

  lemma ScheduledPrefix(events: seq<Event>, turns: seq<Event>)
    requires Scheduled(events, turns) && turns != []
    ensures var init, last := turns[..|turns| - 1], turns[|turns| - 1];
            Scheduled(events, init) && last != Submit && Enabled(Run(events + init), last)
  {
    var init := turns[..|turns| - 1];
    assert forall k :: 0 <= k < |init| ==> init[..k] == turns[..k];
  }

  lemma {:induction false} ScheduleLeaves(events: seq<Event>, turns: seq<Event>) returns (m: nat, n: nat)
    requires Scheduled(events, turns)
    ensures At(Run(events), m) && At(Run(events + turns), n)
    ensures |Run(events + turns).calls| == |Run(events).calls|
    ensures |turns| == Remaining(Run(events), m) - Remaining(Run(events + turns), n)
    decreases |turns|
  {
    if turns == [] {
      m := Reached(events);
      n := m;
      assert events + turns == events;
    } else {
      var init, last := turns[..|turns| - 1], turns[|turns| - 1];
      ScheduledPrefix(events, turns);
      RunLast(events, turns);
      var before;
      m, before := ScheduleLeaves(events, init);
      n := TurnLeaves(Run(events + init), last, before);
    }
  }

  ghost predicate Stuck(l: Loop) {
    forall e: Event :: e != Submit ==> !Enabled(l, e)
  }

  /**
   * Whatever order the event loop takes its turns in and whatever rejects, the
   * submitted work ends: no schedule is longer than three turns a function, and
   * when no turn can be taken every function has run exactly once.
   */
  lemma EveryScheduleDrains(events: seq<Event>, turns: seq<Event>)
    requires Scheduled(events, turns)
    ensures var l := Run(events + turns);
            && |turns| <= 3 * |Run(events).calls| && |l.calls| == |Run(events).calls|
            && (Stuck(l) <==> forall k :: 0 <= k < |l.calls| ==> Done(l.calls[k]))
            && (Stuck(l) ==> |l.log| == 2 * |l.calls|)
  {
    var m, n := ScheduleLeaves(events, turns);
    var l := Run(events + turns);
    if n < |l.calls| {
      var e := NextStage(l, n, _ => true);
      assert n > 0 ==> Done(l.calls[n - 1]);
      assert l.calls[n].after == LastTail(n);
      assert e != Submit && Enabled(l, e);
      assert !Done(l.calls[n]);
    } else {
      forall e: Event | e != Submit ensures !Enabled(l, e) {
        OnlyFront(l, n, e.call);
      }
    }
  }

  // ------------------------------------------------------------------- in place

  class Server {
    var calls: seq<Call>
    var queue: Promise
    ghost var log: seq<Note>

    constructor ()
      ensures Abs() == IDLE
    {
      calls, queue, log := [], Idle, [];
    }

    ghost function Abs(): Loop
      reads this
    {
      Loop(calls, queue, log)
    }

    /** Makes run hang on the queue, and the queue hang on run; returns the number of the call. */
    method DoSerialize() returns (call: nat)
      modifies this
      ensures Abs() == Next(old(Abs()), Submit) && call == |old(calls)|
    {
      call := |calls|;
      calls := calls + [Call(queue, false, Pending, Pending)];
      queue := Tail(call);
    }

    /** One turn of the event loop. */
    method Turn(e: Event)
      modifies this
      ensures Abs() == Next(old(Abs()), e)
    {
      match e
      case Submit =>
        var _ := DoSerialize();
      case Start(k) =>
        if k < |calls| && !calls[k].started && Settles(calls[k].after) {
          calls := calls[k := calls[k].(started := true)];
          log := log + [Started(k)];
        }
      case Complete(k, ok) =>
        if k < |calls| && calls[k].started && calls[k].run == Pending {
          calls := calls[k := calls[k].(run := if ok then Fulfilled else Rejected)];
          log := log + [Ended(k, ok)];
        }
      case Drop(k) =>
        if k < |calls| && calls[k].run != Pending && calls[k].tail == Pending {
          calls := calls[k := calls[k].(tail := Fulfilled)];
        }
    }

    predicate Settles(p: Promise)
      reads this
      ensures Settles(p) == (State(Abs(), p) != Pending)
    {
      p.Idle? || (p.call < |calls| && calls[p.call].tail != Pending)
    }
  }
}
