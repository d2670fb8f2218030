/** What every run of a session inbox keeps: no message is lost, doubled or overtaken, no work is stranded,
    and a drain injects exactly the prefix that it may. */
module InboxRuns {
  import opened Transcript
  import opened SessionInbox

  /** The messages that the live worker holds, and those that wait in the registered queue. */
  function Holding(s: Inbox): seq<Msg> {
    if s.registered.Some? && s.registered.value in s.workers then InHand(s.workers[s.registered.value]) else []
  }

  function Queueing(s: Inbox): seq<Msg> {
    if s.registered.Some? then Items(s, s.registered.value) else []
  }

  /** Whatever arrives while a drain converts its snapshot, and however often conversion fails, nothing is
      lost, doubled or overtaken: what has left, what the worker holds and what is queued are the admitted
      messages in the order of their admission. */
  lemma InboxIsConserved(run: seq<Event>)
    ensures var s := After(NO_SESSION, run);
            && Admits(s.log) == Departs(s.log) + (Holding(s) + Queueing(s))
            && PutOffs(s.log) == Resumes(s.log) + s.deferred
  {
    EveryRunKeepsInv(NO_SESSION, run);
  }

  /** There is at most one worker, and a worker owns the inbox whenever a message or a put-off turn waits. */
  lemma {:induction false} NoWorkIsStranded(run: seq<Event>)
    ensures var s := After(NO_SESSION, run);
            && |s.workers.Keys| <= 1
            && (Queueing(s) != [] || s.deferred != [] || Admits(s.log) != Departs(s.log)
                ==> s.registered.Some? && s.registered.value in s.workers)
  {
    EveryRunKeepsInv(NO_SESSION, run);
    var s := After(NO_SESSION, run);
    assert s.registered.None? ==> s.workers.Keys == {};
  }

  lemma {:induction false} OrderlyAt(log: seq<Entry>, k: nat)
    requires Orderly(log) && k <= |log|
    ensures Orderly(log[..k])
    decreases |log|
  {
    if k == |log| {
      assert log[..k] == log;
    } else {
      OrderlyAt(log[..|log| - 1], k);
      assert log[..|log| - 1][..k] == log[..k];
    }
  }

  /** At every point `k` of the history of every run: messages left in the order of admission, put-off turns
      resumed in their own order, and the next entry resumes a put-off turn only if every admitted message
      had left, and injects only an injectable message. */
  lemma EveryHistoryIsOrderly(run: seq<Event>, k: nat)
    requires k < |After(NO_SESSION, run).log|
    ensures var log := After(NO_SESSION, run).log;
            && Departs(log[..k]) <= Admits(log[..k])
            && Resumes(log[..k]) <= PutOffs(log[..k])
            && (log[k].Resumed? ==> Admits(log[..k]) == Departs(log[..k]))
            && (log[k].Injected? ==> log[k].m.injectable)
  {
    EveryRunKeepsInv(NO_SESSION, run);
    EntryIsOrderly(After(NO_SESSION, run).log, k);
  }

  lemma {:induction false} EntryIsOrderly(log: seq<Entry>, k: nat)
    requires Orderly(log) && k < |log|
    ensures Departs(log[..k]) <= Admits(log[..k]) && Resumes(log[..k]) <= PutOffs(log[..k])
    ensures log[k].Resumed? ==> Admits(log[..k]) == Departs(log[..k])
    ensures log[k].Injected? ==> log[k].m.injectable
  {
    OrderlyAt(log, k);
    OrderlyAt(log, k + 1);
    assert log[..k + 1][..k] == log[..k] && log[..k + 1][k] == log[k];
    assert k == 0 ==> log[..k] == [];
  }

  /** The messages that arrived in a run, and those that a history takes up. */
  function Arrivals(run: seq<Event>): seq<Msg> {
    if run == [] then []
    else var e := run[|run| - 1]; Arrivals(run[..|run| - 1]) + if e.Arrive? then [e.m] else []
  }

  function TakenUp(log: seq<Entry>): seq<Msg> {
    if log == [] then []
    else var e := log[|log| - 1]; TakenUp(log[..|log| - 1]) + if e.Admitted? || e.PutOff? then [e.m] else []
  }

  lemma TakenUpSnoc(log: seq<Entry>, e: Entry)
    ensures TakenUp(log + [e]) == TakenUp(log) + if e.Admitted? || e.PutOff? then [e.m] else []
  {
    assert (log + [e])[..|log|] == log;
  }

  lemma {:induction false} InjectionTakesNothingUp(log: seq<Entry>, batch: seq<Msg>)
    ensures TakenUp(InjectedAll(log, batch)) == TakenUp(log)
    decreases |batch|
  {
    if batch != [] {
      TakenUpSnoc(log, Injected(batch[0]));
      InjectionTakesNothingUp(log + [Injected(batch[0])], batch[1..]);
    }
  }

  lemma NextTakesNothingUp(s: Inbox, q: nat)
    ensures TakenUp(Next(s, q).log) == TakenUp(s.log)
  {
    if Items(s, q) != [] {
      TakenUpSnoc(s.log, Started(Items(s, q)[0]));
    } else if s.deferred != [] {
      TakenUpSnoc(s.log, Resumed(s.deferred[0]));
    }
  }

  lemma ReturnTakesNothingUp(s: Inbox, q: nat, snapshot: seq<Msg>, k: nat)
    ensures TakenUp(PutBack(s, q, snapshot, k).log) == TakenUp(s.log)
  {
    InjectionTakesNothingUp(s.log, snapshot[..if k <= |snapshot| then k else |snapshot|]);
  }

  lemma WorkTakesNothingUp(s: Inbox, q: nat, e: Event)
    requires q in s.workers
    ensures TakenUp(Worked(s, q, e).log) == TakenUp(s.log)
  {
    match s.workers[q]
    case Idle => NextTakesNothingUp(s, q);
    case Draining(root, snapshot, k) =>
      ReturnTakesNothingUp(Enter(s, q, Running(root)), q, snapshot, k);
      ReturnTakesNothingUp(Enter(s, q, Running(root)), q, snapshot, 0);
    case _ =>
  }

  lemma ArrivalIsTakenUp(s: Inbox, m: Msg)
    ensures TakenUp(Arrived(s, m).log) == TakenUp(s.log) + [m]
  {
    TakenUpSnoc(s.log, PutOff(m));
    TakenUpSnoc(s.log, Admitted(m));
  }

  lemma StepTakesUp(s: Inbox, e: Event)
    ensures TakenUp(Step(s, e).log) == TakenUp(s.log) + if e.Arrive? then [e.m] else []
  {
    if e.Arrive? {
      ArrivalIsTakenUp(s, e.m);
    } else if e.q in s.workers {
      WorkTakesNothingUp(s, e.q, e);
    }
  }

  /** Every arrival is admitted or put off, once and in the order of arrival. */
  lemma {:induction false} EveryArrivalIsTakenUp(run: seq<Event>)
    ensures TakenUp(After(NO_SESSION, run).log) == Arrivals(run)
  {
    if run != [] {
      EveryArrivalIsTakenUp(run[..|run| - 1]);
      StepTakesUp(After(NO_SESSION, run[..|run| - 1]), run[|run| - 1]);
    }
  }

  // ----- one drain

  /** The messages up to the first one that must be a turn of its own. */
  function InjectablePrefix(snapshot: seq<Msg>): seq<Msg> {
    if snapshot == [] || !snapshot[0].injectable then [] else [snapshot[0]] + InjectablePrefix(snapshot[1..])
  }

  lemma {:induction false} ConvertedIsThePrefix(snapshot: seq<Msg>, k: nat)
    requires k <= |snapshot| && AllInjectable(snapshot[..k]) && Barrier(snapshot, k)
    ensures InjectablePrefix(snapshot) == snapshot[..k]
  {
    if k > 0 {
      assert snapshot[..k][1..] == snapshot[1..][..k - 1];
      ConvertedIsThePrefix(snapshot[1..], k - 1);
      assert snapshot[..k] == [snapshot[0]] + snapshot[1..][..k - 1];
    }
  }

  lemma {:induction false} InjectedDepart(log: seq<Entry>, batch: seq<Msg>)
    ensures Departs(InjectedAll(log, batch)) == Departs(log) + batch
    decreases |batch|
  {
    if batch == [] {
      assert Departs(log) + batch == Departs(log);
    } else {
      Snoc(log, Injected(batch[0]));
      InjectedDepart(log + [Injected(batch[0])], batch[1..]);
      assert Departs(log) + batch == (Departs(log) + [batch[0]]) + batch[1..];
    }
  }

  /** What happens to the inbox while a drain converts: arrivals and conversions. */
  predicate WhileConverting(run: seq<Event>, q: nat) {
    run == [] || (var e := run[|run| - 1]; WhileConverting(run[..|run| - 1], q) && (e.Arrive? || e == ConvertNext(q)))
  }

  /** The arrivals that do not wait for an idle session. */
  function Prompt(ms: seq<Msg>): seq<Msg> {
    if ms == [] then []
    else var m := ms[|ms| - 1]; Prompt(ms[..|ms| - 1]) + if m.idleOnly then [] else [m]
  }

  lemma {:induction false} SnapshotStep(s: Inbox, q: nat, e: Event)
    requires Inv(s) && s.registered == Some(q) && s.workers[q].Draining? && (e.Arrive? || e == ConvertNext(q))
    ensures var t := Step(s, e);
            && t.registered == Some(q) && q in t.workers && t.workers[q].Draining?
            && t.workers[q].snapshot == s.workers[q].snapshot
            && Items(t, q) == Items(s, q) + (if e.Arrive? && !e.m.idleOnly then [e.m] else [])
            && Departs(t.log) == Departs(s.log)
  {
    assert Items(s, q) + [] == Items(s, q);
    if e.Arrive? {
      NothingDeparts(s.log, PutOff(e.m));
      NothingDeparts(s.log, Admitted(e.m));
    }
  }

  lemma NothingDeparts(log: seq<Entry>, e: Entry)
    requires e.PutOff? || e.Admitted?
    ensures Departs(log + [e]) == Departs(log)
  {
    Snoc(log, e);
  }

  lemma PromptSnoc(ms: seq<Msg>, m: Msg)
    ensures Prompt(ms + [m]) == Prompt(ms) + if m.idleOnly then [] else [m]
  {
    assert (ms + [m])[..|ms|] == ms;
  }

  lemma {:induction false} PromptArrivals(run: seq<Event>)
    requires run != []
    ensures var (init, e) := (run[..|run| - 1], run[|run| - 1]);
            Prompt(Arrivals(run)) == Prompt(Arrivals(init)) + if e.Arrive? && !e.m.idleOnly then [e.m] else []
  {
    var init, e := run[..|run| - 1], run[|run| - 1];
    if e.Arrive? {
      PromptSnoc(Arrivals(init), e.m);
    }
    assert Arrivals(init) + [] == Arrivals(init);
  }

  lemma {:induction false} SnapshotIsFixed(s: Inbox, q: nat, run: seq<Event>)
    requires Inv(s) && s.registered == Some(q) && s.workers[q].Draining? && WhileConverting(run, q)
    ensures var t := After(s, run);
            && Inv(t) && t.registered == Some(q) && t.workers[q].Draining?
            && t.workers[q].snapshot == s.workers[q].snapshot
            && Items(t, q) == Items(s, q) + Prompt(Arrivals(run)) && Departs(t.log) == Departs(s.log)
  {
    if run == [] {
      assert Items(s, q) + [] == Items(s, q);
    } else {
      var init, e := run[..|run| - 1], run[|run| - 1];
      SnapshotIsFixed(s, q, init);
      EveryRunKeepsInv(s, run);
      SnapshotStep(After(s, init), q, e);
      PromptArrivals(run);
      Assoc(Items(s, q), Prompt(Arrivals(init)), if e.Arrive? && !e.m.idleOnly then [e.m] else []);
    }
  }

  function Injecting(snapshot: seq<Msg>, failed: bool): seq<Msg> {
    if failed then [] else InjectablePrefix(snapshot)
  }

  lemma DrainCommits(t: Inbox, q: nat, root: Msg, snapshot: seq<Msg>, k: nat)
    requires q in t.workers && t.workers[q] == Draining(root, snapshot, k) && Converting(t.workers[q])
             && Barrier(snapshot, k)
    ensures var n, out := Step(t, DrainEnds(q)), InjectablePrefix(snapshot);
            && |out| <= |snapshot| && out == snapshot[..|out|]
            && Departs(n.log) == Departs(t.log) + out && Items(n, q) == snapshot[|out|..] + Items(t, q)
  {
    ConvertedIsThePrefix(snapshot, k);
    ReturnedAre(Enter(t, q, Running(root)), q, snapshot, k);
  }

  lemma DrainReturns(t: Inbox, q: nat, root: Msg, snapshot: seq<Msg>, k: nat)
    requires q in t.workers && t.workers[q] == Draining(root, snapshot, k)
    ensures var n := Step(t, ConversionFails(q));
            Departs(n.log) == Departs(t.log) + [] && Items(n, q) == snapshot[0..] + Items(t, q)
  {
    ReturnedAre(Enter(t, q, Running(root)), q, snapshot, 0);
  }

  lemma DrainFinishes(t: Inbox, q: nat, failed: bool)
    requires Inv(t) && t.registered == Some(q) && t.workers[q].Draining?
    requires failed || Barrier(t.workers[q].snapshot, t.workers[q].converted)
    ensures var snapshot, n := t.workers[q].snapshot, Step(t, if failed then ConversionFails(q) else DrainEnds(q));
            var out := Injecting(snapshot, failed);
            && |out| <= |snapshot| && out == snapshot[..|out|]
            && Departs(n.log) == Departs(t.log) + out
            && Items(n, q) == snapshot[|out|..] + Items(t, q)
  {
    var phase := t.workers[q];
    if failed {
      DrainReturns(t, q, phase.root, phase.snapshot, phase.converted);
    } else {
      DrainCommits(t, q, phase.root, phase.snapshot, phase.converted);
    }
  }

  /** A drain that ends injects exactly the messages of its snapshot in front of the first independent turn,
      however many messages arrived meanwhile; the rest of the snapshot stands in front of those arrivals.
      A drain that fails, even behind its last conversion, injects nothing and returns the whole snapshot. */
  lemma {:induction false} DrainInjectsThePrefix(s: Inbox, q: nat, run: seq<Event>, failed: bool)
    requires Inv(s) && s.registered == Some(q) && s.workers[q].Draining? && WhileConverting(run, q)
    requires var phase := After(s, run).workers;
             q in phase && phase[q].Draining? && (failed || Barrier(phase[q].snapshot, phase[q].converted))
    ensures var snapshot, t :=
              s.workers[q].snapshot, Step(After(s, run), if failed then ConversionFails(q) else DrainEnds(q));
            var out := Injecting(snapshot, failed);
            && |out| <= |snapshot| && out == snapshot[..|out|]
            && Departs(t.log) == Departs(s.log) + out
            && Items(t, q) == snapshot[|out|..] + (Items(s, q) + Prompt(Arrivals(run)))
  {
    SnapshotIsFixed(s, q, run);
    DrainFinishes(After(s, run), q, failed);
  }

  lemma ReturnedAre(s: Inbox, q: nat, snapshot: seq<Msg>, k: nat)
    requires k <= |snapshot|
    ensures var t := PutBack(s, q, snapshot, k);
            Departs(t.log) == Departs(s.log) + snapshot[..k] && Items(t, q) == snapshot[k..] + Items(s, q)
  {
    InjectedDepart(s.log, snapshot[..k]);
  }

  // ----- a session that is left alone

  /** The worker of queue `q` runs `n` turns to their end and then looks for work once more. */
  function LeftAlone(s: Inbox, q: nat, n: nat): Inbox
    decreases n
  {
    if n == 0 then Step(s, NextMessage(q))
    else LeftAlone(Step(Step(s, NextMessage(q)), TurnEnds(q)), q, n - 1)
  }

  lemma TurnFromQueue(s: Inbox, q: nat)
    requires Inv(s) && s.registered == Some(q) && s.workers[q].Idle? && Items(s, q) != []
    ensures var t := Step(Step(s, NextMessage(q)), TurnEnds(q));
            && t.registered == Some(q) && q in t.workers && t.workers[q].Idle?
            && Items(t, q) == Items(s, q)[1..] && t.deferred == s.deferred
            && Admits(t.log) == Admits(s.log) && PutOffs(t.log) == PutOffs(s.log)
  {
    Snoc(s.log, Started(Items(s, q)[0]));
  }

  lemma TurnFromPutOffs(s: Inbox, q: nat)
    requires Inv(s) && s.registered == Some(q) && s.workers[q].Idle? && Items(s, q) == [] && s.deferred != []
    ensures var t := Step(Step(s, NextMessage(q)), TurnEnds(q));
            && t.registered == Some(q) && q in t.workers && t.workers[q].Idle?
            && Items(t, q) == [] && t.deferred == s.deferred[1..]
            && Admits(t.log) == Admits(s.log) && PutOffs(t.log) == PutOffs(s.log)
  {
    Snoc(s.log, Resumed(s.deferred[0]));
  }

  lemma {:induction false} OneTurn(s: Inbox, q: nat)
    requires Inv(s) && s.registered == Some(q) && s.workers[q].Idle? && |Items(s, q)| + |s.deferred| > 0
    ensures var t := Step(Step(s, NextMessage(q)), TurnEnds(q));
            && Inv(t) && t.registered == Some(q) && q in t.workers && t.workers[q].Idle?
            && |Items(t, q)| + |t.deferred| == |Items(s, q)| + |s.deferred| - 1
            && Admits(t.log) == Admits(s.log) && PutOffs(t.log) == PutOffs(s.log)
  {
    StepKeepsInv(s, NextMessage(q));
    StepKeepsInv(Step(s, NextMessage(q)), TurnEnds(q));
    if Items(s, q) != [] {
      TurnFromQueue(s, q);
    } else {
      TurnFromPutOffs(s, q);
    }
  }

  lemma NoTurn(s: Inbox, q: nat)
    requires Inv(s) && s.registered == Some(q) && s.workers[q].Idle? && Items(s, q) == [] && s.deferred == []
    ensures var t := Step(s, NextMessage(q));
            && Inv(t) && t.registered.None? && t.workers == map[]
            && Departs(t.log) == Admits(s.log) && Resumes(t.log) == PutOffs(s.log)
  {
    StepKeepsInv(s, NextMessage(q));
  }

  /** Once nothing arrives any more, as many turns as there are waiting messages empty the inbox and the
      list of put-off turns, and then the worker is gone and the session is no longer active. */
  lemma {:induction false} LeftAloneEverythingRuns(s: Inbox, q: nat, n: nat)
    requires Inv(s) && s.registered == Some(q) && s.workers[q].Idle? && n == |Items(s, q)| + |s.deferred|
    ensures var t := LeftAlone(s, q, n);
            && Inv(t) && t.registered.None? && t.workers == map[]
            && Departs(t.log) == Admits(s.log) && Resumes(t.log) == PutOffs(s.log)
    decreases n
  {
    if n == 0 {
      NoTurn(s, q);
    } else {
      OneTurn(s, q);
      LeftAloneEverythingRuns(Step(Step(s, NextMessage(q)), TurnEnds(q)), q, n - 1);
    }
  }
}
