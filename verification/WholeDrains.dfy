/** A drain from its beginning to its end, and the other steps of a session in terms of what stands in its inbox. */
module WholeDrains {
  import opened Transcript
  import opened SessionInbox
  import opened InboxRuns

  /** What the worker holds at the beginning of a drain, and behind it everything that is queued. */
  function Available(s: Inbox, q: nat): seq<Msg>
    requires q in s.workers
  {
    (if s.workers[q].Held? then [s.workers[q].first] else []) + if q in s.queues then s.queues[q] else []
  }

  /** The first `c` messages may be injected, and the next one may not, if there is one. */
  predicate PrefixOf(ms: seq<Msg>, c: nat) {
    c <= |ms| && (forall i | 0 <= i < c :: ms[i].injectable) && (c < |ms| ==> !ms[c].injectable)
  }

  /** The number of conversions in a run. */
  function Conversions(run: seq<Event>, q: nat): nat {
    if run == [] then 0
    else Conversions(run[..|run| - 1], q) + if run[|run| - 1] == ConvertNext(q) then 1 else 0
  }

  /** The entries that injecting the first `c` messages writes. */
  function Injections(ms: seq<Msg>, c: nat): (entries: seq<Entry>)
    requires c <= |ms|
    ensures |entries| == c
  {
    if c == 0 then [] else Injections(ms, c - 1) + [Injected(ms[c - 1])]
  }

  lemma {:induction false} InjectedAllAre(log: seq<Entry>, ms: seq<Msg>, c: nat)
    requires c <= |ms|
    ensures InjectedAll(log, ms[..c]) == log + Injections(ms, c)
  {
    if c == 0 {
      assert ms[..0] == [] && log + [] == log;
    } else {
      assert ms[..c] == ms[..c - 1] + [ms[c - 1]];
      InjectedSnoc(log, ms[..c - 1], ms[c - 1]);
      InjectedAllAre(log, ms, c - 1);
    }
  }

  lemma {:induction false} InjectedSnoc(log: seq<Entry>, batch: seq<Msg>, m: Msg)
    ensures InjectedAll(log, batch + [m]) == InjectedAll(log, batch) + [Injected(m)]
    decreases |batch|
  {
    if batch == [] {
      assert batch + [m] == [m] && [m][1..] == [];
    } else {
      assert (batch + [m])[0] == batch[0] && (batch + [m])[1..] == batch[1..] + [m];
      InjectedSnoc(log + [Injected(batch[0])], batch[1..], m);
    }
  }

  // ----- the drain

  lemma BeginTakesAll(s: Inbox, q: nat)
    requires Inv(s) && s.registered == Some(q) && (s.workers[q].Running? || s.workers[q].Held?)
    ensures var t := Step(s, DrainBegins(q));
            && Inv(t) && t.registered == Some(q) && t.log == s.log && t.deferred == s.deferred
            && t.workers[q] == Draining(s.workers[q].root, Available(s, q), 0) && Items(t, q) == []
  {
    StepKeepsInv(s, DrainBegins(q));
    assert [] + Items(s, q) == Items(s, q);
  }

  function Least(a: nat, b: nat): nat {
    if a <= b then a else b
  }

  lemma ConvertStep(s: Inbox, q: nat, e: Event, c: nat)
    requires s.registered == Some(q) && q in s.workers && s.workers[q].Draining?
    requires PrefixOf(s.workers[q].snapshot, c) && s.workers[q].converted <= c && (e.Arrive? || e == ConvertNext(q))
    ensures var (p, t) := (s.workers[q], Step(s, e));
            && t.registered == Some(q) && q in t.workers
            && t.workers[q]
               == Draining(p.root, p.snapshot, if e.Arrive? then p.converted else Least(p.converted + 1, c))
  {
  }

  ghost predicate ConvertedTo(t: Inbox, q: nat, root: Msg, snapshot: seq<Msg>, k: nat) {
    t.registered == Some(q) && q in t.workers && t.workers[q] == Draining(root, snapshot, k)
  }

  lemma {:induction false} Converted(s: Inbox, q: nat, run: seq<Event>, c: nat)
    requires s.registered == Some(q) && q in s.workers && s.workers[q].Draining? && s.workers[q].converted == 0
    requires PrefixOf(s.workers[q].snapshot, c) && WhileConverting(run, q)
    ensures ConvertedTo(After(s, run), q, s.workers[q].root, s.workers[q].snapshot, Least(Conversions(run, q), c))
  {
    if run != [] {
      var init, e := run[..|run| - 1], run[|run| - 1];
      Converted(s, q, init, c);
      ConvertStep(After(s, init), q, e, c);
    }
  }

  /** A whole drain, for every state: the worker runs a turn or holds a message; any messages arrive and at least the
      prefix is converted in any order. Behind the end of the drain exactly the injectable prefix of what was available
      at its beginning has left, by injection; the rest is queued, in front of the messages that arrived meanwhile, and
      the turn goes on. */
  lemma {:induction false} DrainTakesEverything(s: Inbox, q: nat, run: seq<Event>, c: nat)
    requires Inv(s) && s.registered == Some(q) && (s.workers[q].Running? || s.workers[q].Held?)
    requires PrefixOf(Available(s, q), c) && WhileConverting(run, q) && Conversions(run, q) >= c
    ensures var all := Available(s, q);
            var t := After(Step(s, DrainBegins(q)), run);
            var n := Step(t, DrainEnds(q));
            && n.log == t.log + Injections(all, c) && Departs(n.log) == Departs(s.log) + all[..c]
            && Items(n, q) == all[c..] + Prompt(Arrivals(run))
            && n.registered == Some(q) && q in n.workers && n.workers[q] == Running(s.workers[q].root)
  {
    var all, begun := Available(s, q), Step(s, DrainBegins(q));
    var t := After(begun, run);
    BeginTakesAll(s, q);
    Converted(begun, q, run, c);
    SnapshotIsFixed(begun, q, run);
    EndCommits(t, q, s.workers[q].root, all, c);
    assert [] + Prompt(Arrivals(run)) == Prompt(Arrivals(run));
  }

  lemma EndCommits(t: Inbox, q: nat, root: Msg, all: seq<Msg>, c: nat)
    requires q in t.workers && t.workers[q] == Draining(root, all, c) && PrefixOf(all, c)
    ensures var n := Step(t, DrainEnds(q));
            && n.log == t.log + Injections(all, c) && Departs(n.log) == Departs(t.log) + all[..c]
            && Items(n, q) == all[c..] + Items(t, q)
            && n.registered == t.registered && n.workers == t.workers[q := Running(root)]
  {
    ReturnedAre(Enter(t, q, Running(root)), q, all, c);
    InjectedAllAre(t.log, all, c);
  }

  /** A drain that fails at any point: nothing has left, and everything that was available is back in front of the
      messages that arrived meanwhile. */
  lemma {:induction false} FailedDrainReturnsEverything(s: Inbox, q: nat, run: seq<Event>, c: nat)
    requires Inv(s) && s.registered == Some(q) && (s.workers[q].Running? || s.workers[q].Held?)
    requires PrefixOf(Available(s, q), c) && WhileConverting(run, q)
    ensures var t := After(Step(s, DrainBegins(q)), run);
            var n := Step(t, ConversionFails(q));
            && n.log == t.log && Departs(n.log) == Departs(s.log)
            && Items(n, q) == Available(s, q) + Prompt(Arrivals(run))
            && n.registered == Some(q) && q in n.workers && n.workers[q] == Running(s.workers[q].root)
  {
    var all, begun := Available(s, q), Step(s, DrainBegins(q));
    BeginTakesAll(s, q);
    Converted(begun, q, run, c);
    SnapshotIsFixed(begun, q, run);
    FailureReturns(After(begun, run), q, s.workers[q].root, all);
    assert [] + Prompt(Arrivals(run)) == Prompt(Arrivals(run));
  }

  lemma FailureReturns(t: Inbox, q: nat, root: Msg, all: seq<Msg>)
    requires q in t.workers && t.workers[q].Draining? && t.workers[q].root == root && t.workers[q].snapshot == all
    ensures var n := Step(t, ConversionFails(q));
            && n.log == t.log && Items(n, q) == all + Items(t, q)
            && n.registered == t.registered && n.workers == t.workers[q := Running(root)]
  {
    assert all[0..] == all && all[..0] == [];
  }

  // ----- before a drain

  /** A turn that waits at its end takes the first queued message, if there is one, and a drain from there on has
      the whole queue. */
  lemma WaitingTakesTheFirst(s: Inbox, q: nat)
    requires Inv(s) && s.registered == Some(q) && s.workers[q].Running?
    ensures var t := Step(Step(s, WaitBegins(q)), TakeOne(q));
            && Inv(t) && t.registered == Some(q) && t.log == s.log
            && (Available(s, q) != [] ==> t.workers[q].Held? && Available(t, q) == Available(s, q))
            && (Available(s, q) == [] ==> t.workers[q] == Waiting(s.workers[q].root))
  {
    WaitingStaysInOrder(s, q);
    WaitingTakes(s, q);
  }

  lemma WaitingStaysInOrder(s: Inbox, q: nat)
    requires Inv(s)
    ensures Inv(Step(Step(s, WaitBegins(q)), TakeOne(q)))
  {
    StepKeepsInv(s, WaitBegins(q));
    StepKeepsInv(Step(s, WaitBegins(q)), TakeOne(q));
  }

  lemma WaitingTakes(s: Inbox, q: nat)
    requires s.registered == Some(q) && q in s.workers && s.workers[q].Running?
    ensures var t := Step(Step(s, WaitBegins(q)), TakeOne(q));
            && t.registered == Some(q) && t.log == s.log && q in t.workers
            && (Available(s, q) != [] ==> t.workers[q].Held? && Available(t, q) == Available(s, q))
            && (Available(s, q) == [] ==> t.workers[q] == Waiting(s.workers[q].root))
  {
    var items := Items(s, q);
    assert [] + items == items && (items != [] ==> [items[0]] + items[1..] == items);
  }

  /** Where an arrival goes: an automation turn waits while there is a worker; anything else comes last in the queue of
      the worker, or starts a worker with it. */
  lemma ArrivalIsPlaced(s: Inbox, m: Msg)
    requires Inv(s)
    ensures var n := Step(s, Arrive(m));
            if s.registered.Some? && m.idleOnly then
              n == s.(deferred := s.deferred + [m], log := s.log + [PutOff(m)])
            else
              && n.log == s.log + [Admitted(m)] && n.deferred == s.deferred && n.registered.Some?
              && n.registered.value in n.workers
              && if s.registered.Some? then
                   && n.registered == s.registered && n.workers == s.workers
                   && Items(n, n.registered.value) == Items(s, n.registered.value) + [m]
                 else n.workers[n.registered.value] == Idle && Items(n, n.registered.value) == [m]
  {
    StepKeepsInv(s, Arrive(m));
  }

  /** What an idle worker does: it runs the first queued message; without one the first turn that was put off; with
      neither it leaves, and the session is free for a new worker. */
  lemma IdleWorkerGoesOn(s: Inbox, q: nat)
    requires Inv(s) && s.registered == Some(q) && s.workers[q].Idle?
    ensures var n := Step(s, NextMessage(q));
            if Items(s, q) != [] then
              && q in n.workers && n.workers[q] == Running(Items(s, q)[0]) && Items(n, q) == Items(s, q)[1..]
              && n.deferred == s.deferred && n.log == s.log + [Started(Items(s, q)[0])]
            else if s.deferred != [] then
              && q in n.workers && n.workers[q] == Running(s.deferred[0]) && n.deferred == s.deferred[1..]
              && Items(n, q) == [] && n.log == s.log + [Resumed(s.deferred[0])]
            else n.registered.None? && n.workers == map[] && n.log == s.log
  {
    assert (s.workers - {q}).Keys == {};
  }
}
