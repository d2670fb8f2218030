/** The inbox of one session: a queue drained by one worker, a turn that may absorb an injectable prefix of
    that queue while new messages keep arriving, and automation turns that wait until the inbox is idle.
    A step is what happens between two awaits; any order of steps is a run. */
module SessionInbox {
  import opened Transcript

  /** A message of the session. `injectable`: a running turn may absorb it; otherwise it is a turn of its
      own. `idleOnly`: an automation turn that waits while the session is active. */
  datatype Msg = Msg(id: nat, injectable: bool, idleOnly: bool)

  /** Where a worker stands. A turn that waits for one more message at its end may hold that message
      before the drain starts; a drain has taken a snapshot and converts its messages one at a time. */
  datatype Phase =
    | Idle
    | Running(root: Msg)
    | Waiting(root: Msg)
    | Held(root: Msg, first: Msg)
    | Draining(root: Msg, snapshot: seq<Msg>, converted: nat)

  /** The history of a session, newest last. */
  datatype Entry = Admitted(m: Msg) | PutOff(m: Msg) | Started(m: Msg) | Resumed(m: Msg) | Injected(m: Msg)

  /** The registered queue, the contents of every queue ever created, the live workers by the queue that
      they own, the automation turns put off, and the history. */
  datatype Inbox = Inbox(registered: Option<nat>, queues: map<nat, seq<Msg>>, workers: map<nat, Phase>,
                         deferred: seq<Msg>, created: nat, log: seq<Entry>)

  const NO_SESSION: Inbox := Inbox(None, map[], map[], [], 0, [])

  datatype Event =
    | Arrive(m: Msg)
    | NextMessage(q: nat)
    | TurnEnds(q: nat)
    | WaitBegins(q: nat)
    | WaitEnds(q: nat)
    | TakeOne(q: nat)
    | DrainBegins(q: nat)
    | ConvertNext(q: nat)
    | DrainEnds(q: nat)
    | ConversionFails(q: nat)

  function Items(s: Inbox, q: nat): seq<Msg> {
    if q in s.queues then s.queues[q] else []
  }

  function Enter(s: Inbox, q: nat, phase: Phase): Inbox {
    s.(workers := s.workers[q := phase])
  }

  function Queued(s: Inbox, q: nat, items: seq<Msg>): Inbox {
    s.(queues := s.queues[q := items])
  }

  function Logged(s: Inbox, e: Entry): Inbox {
    s.(log := s.log + [e])
  }

  function InjectedAll(log: seq<Entry>, batch: seq<Msg>): seq<Entry>
    decreases |batch|
  {
    if batch == [] then log else InjectedAll(log + [Injected(batch[0])], batch[1..])
  }

  /** A message arrives: an automation turn waits while the session is active; everything else goes to the
      registered queue, or to a new queue with a new worker. */
  function Arrived(s: Inbox, m: Msg): Inbox {
    match s.registered
    case Some(q) =>
      if m.idleOnly then Logged(s.(deferred := s.deferred + [m]), PutOff(m))
      else Logged(Queued(s, q, Items(s, q) + [m]), Admitted(m))
    case None =>
      var q := s.created;
      Logged(Enter(Queued(s, q, [m]), q, Idle).(registered := Some(q), created := q + 1), Admitted(m))
  }

  /** The worker of queue `q` looks for work: its queue first, then a turn that was put off; with neither
      it leaves, and gives up the registration if it still owns it. */
  function Next(s: Inbox, q: nat): Inbox {
    if s.registered != Some(q) then s.(workers := s.workers - {q})
    else if Items(s, q) != [] then
      var m := Items(s, q)[0];
      Logged(Enter(Queued(s, q, Items(s, q)[1..]), q, Running(m)), Started(m))
    else if s.deferred != [] then
      var m := s.deferred[0];
      Logged(Enter(s, q, Running(m)).(deferred := s.deferred[1..]), Resumed(m))
    else s.(workers := s.workers - {q}, registered := None)
  }

  /** Conversion has come to the end of the snapshot or to a message that must be a turn of its own. */
  predicate Barrier(snapshot: seq<Msg>, converted: nat) {
    converted >= |snapshot| || !snapshot[converted].injectable
  }

  /** One step of the worker of queue `q`; an event that cannot happen changes nothing. */
  function Worked(s: Inbox, q: nat, e: Event): Inbox
    requires q in s.workers
  {
    match (s.workers[q], e)
    case (Idle, NextMessage(_)) => Next(s, q)
    case (Running(_), TurnEnds(_)) => Enter(s, q, Idle)
    case (Running(root), WaitBegins(_)) => Enter(s, q, Waiting(root))
    case (Waiting(root), WaitEnds(_)) => Enter(s, q, Running(root))
    case (Waiting(root), TakeOne(_)) =>
      if Items(s, q) == [] then s
      else Enter(Queued(s, q, Items(s, q)[1..]), q, Held(root, Items(s, q)[0]))
    case (Held(root, first), DrainBegins(_)) =>
      Enter(Queued(s, q, []), q, Draining(root, [first] + Items(s, q), 0))
    case (Running(root), DrainBegins(_)) =>
      Enter(Queued(s, q, []), q, Draining(root, Items(s, q), 0))
    case (Draining(root, snapshot, k), ConvertNext(_)) =>
      if Barrier(snapshot, k) then s else Enter(s, q, Draining(root, snapshot, k + 1))
    case (Draining(root, snapshot, k), DrainEnds(_)) =>
      if !Barrier(snapshot, k) then s
      else PutBack(Enter(s, q, Running(root)), q, snapshot, k)
    case (Draining(root, snapshot, _), ConversionFails(_)) => PutBack(Enter(s, q, Running(root)), q, snapshot, 0)
    case _ => s
  }

  /** The first `k` messages of the snapshot leave by injection; the others return in front of the queue. */
  function PutBack(s: Inbox, q: nat, snapshot: seq<Msg>, k: nat): Inbox {
    var n := if k <= |snapshot| then k else |snapshot|;
    Queued(s, q, snapshot[n..] + Items(s, q)).(log := InjectedAll(s.log, snapshot[..n]))
  }

  function Step(s: Inbox, e: Event): Inbox {
    if e.Arrive? then Arrived(s, e.m)
    else if e.q in s.workers then Worked(s, e.q, e) else s
  }

  function After(s: Inbox, run: seq<Event>): Inbox {
    if run == [] then s else Step(After(s, run[..|run| - 1]), run[|run| - 1])
  }

  // ----- what a history says

  function Admits(log: seq<Entry>): seq<Msg> {
    if log == [] then []
    else var e := log[|log| - 1]; Admits(log[..|log| - 1]) + if e.Admitted? then [e.m] else []
  }

  /** The messages that left the inbox, as a turn of their own or into a running turn. */
  function Departs(log: seq<Entry>): seq<Msg> {
    if log == [] then []
    else var e := log[|log| - 1]; Departs(log[..|log| - 1]) + if e.Started? || e.Injected? then [e.m] else []
  }

  function PutOffs(log: seq<Entry>): seq<Msg> {
    if log == [] then []
    else var e := log[|log| - 1]; PutOffs(log[..|log| - 1]) + if e.PutOff? then [e.m] else []
  }

  function Resumes(log: seq<Entry>): seq<Msg> {
    if log == [] then []
    else var e := log[|log| - 1]; Resumes(log[..|log| - 1]) + if e.Resumed? then [e.m] else []
  }

  /** A history in which, at every point, messages have left in the order of their admission, put-off turns
      have been resumed in the order in which they were put off, a put-off turn was resumed only when every
      admitted message had left, and only injectable messages were injected. */
  predicate Orderly(log: seq<Entry>) {
    log == [] ||
    var (init, e) := (log[..|log| - 1], log[|log| - 1]);
    && Orderly(init)
    && Departs(log) <= Admits(log)
    && Resumes(log) <= PutOffs(log)
    && (e.Resumed? ==> Admits(init) == Departs(init))
    && (e.Injected? ==> e.m.injectable)
  }

  lemma Snoc(log: seq<Entry>, e: Entry)
    ensures var all := log + [e];
            && Admits(all) == Admits(log) + (if e.Admitted? then [e.m] else [])
            && Departs(all) == Departs(log) + (if e.Started? || e.Injected? then [e.m] else [])
            && PutOffs(all) == PutOffs(log) + (if e.PutOff? then [e.m] else [])
            && Resumes(all) == Resumes(log) + (if e.Resumed? then [e.m] else [])
  {
    assert (log + [e])[..|log|] == log;
  }

  lemma OrderlySnoc(log: seq<Entry>, e: Entry)
    requires Orderly(log)
    requires Departs(log) + (if e.Started? || e.Injected? then [e.m] else [])
          <= Admits(log) + (if e.Admitted? then [e.m] else [])
    requires Resumes(log) + (if e.Resumed? then [e.m] else []) <= PutOffs(log) + (if e.PutOff? then [e.m] else [])
    requires e.Resumed? ==> Admits(log) == Departs(log)
    requires e.Injected? ==> e.m.injectable
    ensures Orderly(log + [e])
  {
    Snoc(log, e);
    assert (log + [e])[..|log|] == log;
  }

  // ----- the invariant

  predicate AllInjectable(batch: seq<Msg>) {
    batch == [] || (batch[0].injectable && AllInjectable(batch[1..]))
  }

  /** The messages that a worker has in its hands and may still put back. */
  function InHand(phase: Phase): seq<Msg> {
    match phase
    case Held(_, first) => [first]
    case Draining(_, snapshot, _) => snapshot
    case _ => []
  }

  predicate Converting(phase: Phase) {
    phase.Draining? ==> phase.converted <= |phase.snapshot| && AllInjectable(phase.snapshot[..phase.converted])
  }

  /** What was admitted is what has left, what the worker holds and what is queued, in this order; what was
      put off is what was resumed and what still waits, in this order. */
  predicate Accounted(log: seq<Entry>, deferred: seq<Msg>, phase: Phase, items: seq<Msg>) {
    && Orderly(log) && Converting(phase)
    && PutOffs(log) == Resumes(log) + deferred
    && Admits(log) == Departs(log) + (InHand(phase) + items)
  }

  /** One worker at most, which owns the registered queue; without one nothing waits. */
  predicate Inv(s: Inbox) {
    match s.registered
    case None => s.workers == map[] && s.deferred == [] && Accounted(s.log, [], Idle, [])
    case Some(q) => s.workers.Keys == {q} && Accounted(s.log, s.deferred, s.workers[q], Items(s, q))
  }

  lemma Admit(log: seq<Entry>, deferred: seq<Msg>, phase: Phase, items: seq<Msg>, m: Msg)
    requires Accounted(log, deferred, phase, items)
    ensures Accounted(log + [Admitted(m)], deferred, phase, items + [m])
  {
    var e := Admitted(m);
    var kept := InHand(phase) + items;
    Assoc(Departs(log), kept, [m]);
    assert kept + [m] == InHand(phase) + (items + [m]);
    Prefixes(Departs(log), kept + [m]);
    Prefixes(Resumes(log), deferred);
    Snoc(log, e);
    OrderlySnoc(log, e);
  }

  lemma PutOne(log: seq<Entry>, deferred: seq<Msg>, phase: Phase, items: seq<Msg>, m: Msg)
    requires Accounted(log, deferred, phase, items)
    ensures Accounted(log + [PutOff(m)], deferred + [m], phase, items)
  {
    var e := PutOff(m);
    Assoc(Resumes(log), deferred, [m]);
    Prefixes(Departs(log), InHand(phase) + items);
    Prefixes(Resumes(log), deferred + [m]);
    Snoc(log, e);
    OrderlySnoc(log, e);
  }

  lemma Start(log: seq<Entry>, deferred: seq<Msg>, items: seq<Msg>)
    requires Accounted(log, deferred, Idle, items) && items != []
    ensures Accounted(log + [Started(items[0])], deferred, Running(items[0]), items[1..])
  {
    var e := Started(items[0]);
    assert [] + items == [e.m] + items[1..] && [] + items[1..] == items[1..];
    Assoc(Departs(log), [e.m], items[1..]);
    Prefixes(Departs(log) + [e.m], items[1..]);
    Prefixes(Resumes(log), deferred);
    Snoc(log, e);
    OrderlySnoc(log, e);
  }

  lemma Resume(log: seq<Entry>, deferred: seq<Msg>)
    requires Accounted(log, deferred, Idle, []) && deferred != []
    ensures Accounted(log + [Resumed(deferred[0])], deferred[1..], Running(deferred[0]), [])
  {
    var e := Resumed(deferred[0]);
    assert deferred == [e.m] + deferred[1..];
    Assoc(Resumes(log), [e.m], deferred[1..]);
    Prefixes(Resumes(log) + [e.m], deferred[1..]);
    assert Departs(log) + ([] + []) == Departs(log);
    Snoc(log, e);
    OrderlySnoc(log, e);
  }

  lemma Assoc(a: seq<Msg>, b: seq<Msg>, c: seq<Msg>)
    ensures a + (b + c) == (a + b) + c
  {
  }

  lemma Prefixes(a: seq<Msg>, b: seq<Msg>)
    ensures a <= a + b
  {
  }

  lemma {:induction false} InjectionKeepsOrder(log: seq<Entry>, deferred: seq<Msg>, root: Msg, batch: seq<Msg>,
                                               rest: seq<Msg>)
    requires Accounted(log, deferred, Running(root), batch + rest) && AllInjectable(batch)
    ensures Accounted(InjectedAll(log, batch), deferred, Running(root), rest)
    decreases |batch|
  {
    if batch == [] {
      assert batch + rest == rest;
    } else {
      var e := Injected(batch[0]);
      var left := batch[1..] + rest;
      assert [] + (batch + rest) == [e.m] + left && [] + left == left;
      Assoc(Departs(log), [e.m], left);
      Prefixes(Departs(log) + [e.m], left);
      Prefixes(Resumes(log), deferred);
      Snoc(log, e);
      OrderlySnoc(log, e);
      InjectionKeepsOrder(log + [e], deferred, root, batch[1..], rest);
    }
  }

  lemma Return(log: seq<Entry>, deferred: seq<Msg>, phase: Phase, items: seq<Msg>, root: Msg, k: nat)
    requires Accounted(log, deferred, phase, items) && phase.Draining?
    requires k <= phase.converted
    ensures k <= |phase.snapshot|
    ensures Accounted(InjectedAll(log, phase.snapshot[..k]), deferred, Running(root), phase.snapshot[k..] + items)
  {
    var snapshot := phase.snapshot;
    var rest := snapshot[k..] + items;
    assert snapshot[..k] + rest == snapshot + items;
    assert [] + (snapshot + items) == snapshot + items;
    AllInjectablePrefix(snapshot[..phase.converted], k);
    assert snapshot[..phase.converted][..k] == snapshot[..k];
    InjectionKeepsOrder(log, deferred, root, snapshot[..k], rest);
  }

  lemma {:induction false} AllInjectablePrefix(batch: seq<Msg>, k: nat)
    requires AllInjectable(batch) && k <= |batch|
    ensures AllInjectable(batch[..k])
  {
    if k > 0 {
      AllInjectablePrefix(batch[1..], k - 1);
      assert batch[..k][1..] == batch[1..][..k - 1];
    }
  }

  lemma {:induction false} AllInjectableSnoc(batch: seq<Msg>, m: Msg)
    requires AllInjectable(batch) && m.injectable
    ensures AllInjectable(batch + [m])
  {
    if batch != [] {
      AllInjectableSnoc(batch[1..], m);
      assert (batch + [m])[1..] == batch[1..] + [m];
    }
  }

  lemma ConvertOne(log: seq<Entry>, deferred: seq<Msg>, phase: Phase, items: seq<Msg>)
    requires Accounted(log, deferred, phase, items) && phase.Draining? && !Barrier(phase.snapshot, phase.converted)
    ensures Accounted(log, deferred, phase.(converted := phase.converted + 1), items)
  {
    var (snapshot, k) := (phase.snapshot, phase.converted);
    AllInjectableSnoc(snapshot[..k], snapshot[k]);
    assert snapshot[..k + 1] == snapshot[..k] + [snapshot[k]];
  }

  /** Only the border between the hands of the worker and the queue moves. */
  lemma HandOver(log: seq<Entry>, deferred: seq<Msg>, phase: Phase, items: seq<Msg>, phase': Phase, items': seq<Msg>)
    requires Accounted(log, deferred, phase, items) && Converting(phase')
    requires InHand(phase) + items == InHand(phase') + items'
    ensures Accounted(log, deferred, phase', items')
  {
  }

  lemma ArrivalKeepsInv(s: Inbox, m: Msg)
    requires Inv(s)
    ensures Inv(Arrived(s, m))
  {
    match s.registered
    case Some(q) =>
      if m.idleOnly {
        PutOne(s.log, s.deferred, s.workers[q], Items(s, q), m);
      } else {
        Admit(s.log, s.deferred, s.workers[q], Items(s, q), m);
      }
    case None =>
      Admit(s.log, [], Idle, [], m);
  }

  lemma NextKeepsInv(s: Inbox, q: nat)
    requires Inv(s) && q in s.workers && s.workers[q].Idle?
    ensures Inv(Next(s, q))
  {
    if Items(s, q) != [] {
      Start(s.log, s.deferred, Items(s, q));
    } else if s.deferred != [] {
      Resume(s.log, s.deferred);
    } else {
      assert (s.workers - {q}).Keys == {};
    }
  }

  /** The end of a drain with the first `k` messages injected. */
  lemma PutBackKeepsInv(s: Inbox, q: nat, k: nat)
    requires Inv(s) && q in s.workers && s.workers[q].Draining? && k <= s.workers[q].converted
    ensures Inv(PutBack(Enter(s, q, Running(s.workers[q].root)), q, s.workers[q].snapshot, k))
  {
    var phase := s.workers[q];
    Return(s.log, s.deferred, phase, Items(s, q), phase.root, k);
    assert Enter(s, q, Running(phase.root)).workers.Keys == {q};
  }

  lemma ConvertKeepsInv(s: Inbox, q: nat)
    requires Inv(s) && q in s.workers && s.workers[q].Draining?
    requires !Barrier(s.workers[q].snapshot, s.workers[q].converted)
    ensures var phase := s.workers[q];
            Inv(Enter(s, q, phase.(converted := phase.converted + 1)))
  {
    var phase := s.workers[q];
    ConvertOne(s.log, s.deferred, phase, Items(s, q));
    assert Enter(s, q, phase.(converted := phase.converted + 1)).workers.Keys == {q};
  }

  lemma DrainKeepsInv(s: Inbox, q: nat, e: Event)
    requires Inv(s) && q in s.workers && s.workers[q].Draining?
    ensures Inv(Worked(s, q, e))
  {
    var phase := s.workers[q];
    if e.ConvertNext? && !Barrier(phase.snapshot, phase.converted) {
      ConvertKeepsInv(s, q);
    } else if e.DrainEnds? && Barrier(phase.snapshot, phase.converted) {
      PutBackKeepsInv(s, q, phase.converted);
    } else if e.ConversionFails? {
      PutBackKeepsInv(s, q, 0);
    }
  }

  lemma HandingOverKeepsInv(s: Inbox, q: nat, items: seq<Msg>, phase: Phase)
    requires Inv(s) && s.registered == Some(q) && Converting(phase)
    requires InHand(s.workers[q]) + Items(s, q) == InHand(phase) + items
    ensures Inv(Enter(Queued(s, q, items), q, phase))
    ensures items == Items(s, q) ==> Inv(Enter(s, q, phase))
  {
    HandOver(s.log, s.deferred, s.workers[q], Items(s, q), phase, items);
    assert Enter(s, q, phase).workers.Keys == {q} && Enter(Queued(s, q, items), q, phase).workers.Keys == {q};
  }

  lemma WaitKeepsInv(s: Inbox, q: nat, e: Event)
    requires Inv(s) && q in s.workers && (s.workers[q].Waiting? || s.workers[q].Held?)
    ensures Inv(Worked(s, q, e))
  {
    var items, phase := Items(s, q), s.workers[q];
    if phase.Waiting? && e.TakeOne? && items != [] {
      assert [] + items == [items[0]] + items[1..];
      HandingOverKeepsInv(s, q, items[1..], Held(phase.root, items[0]));
    } else if phase.Waiting? && e.WaitEnds? {
      HandingOverKeepsInv(s, q, items, Running(phase.root));
    } else if phase.Held? && e.DrainBegins? {
      assert [phase.first] + items == ([phase.first] + items) + [];
      HandingOverKeepsInv(s, q, [], Draining(phase.root, [phase.first] + items, 0));
    }
  }

  lemma TurnKeepsInv(s: Inbox, q: nat, e: Event)
    requires Inv(s) && q in s.workers && s.workers[q].Running?
    ensures Inv(Worked(s, q, e))
  {
    var items, root := Items(s, q), s.workers[q].root;
    if e.DrainBegins? {
      assert [] + items == items + [];
      HandingOverKeepsInv(s, q, [], Draining(root, items, 0));
    } else if e.TurnEnds? {
      HandingOverKeepsInv(s, q, items, Idle);
    } else if e.WaitBegins? {
      HandingOverKeepsInv(s, q, items, Waiting(root));
    }
  }

  lemma WorkKeepsInv(s: Inbox, q: nat, e: Event)
    requires Inv(s) && q in s.workers
    ensures Inv(Worked(s, q, e))
  {
    if s.workers[q].Draining? {
      DrainKeepsInv(s, q, e);
    } else if s.workers[q].Running? {
      TurnKeepsInv(s, q, e);
    } else if !s.workers[q].Idle? {
      WaitKeepsInv(s, q, e);
    } else if e.NextMessage? {
      NextKeepsInv(s, q);
    }
  }

  lemma StepKeepsInv(s: Inbox, e: Event)
    requires Inv(s)
    ensures Inv(Step(s, e))
  {
    if e.Arrive? {
      ArrivalKeepsInv(s, e.m);
    } else if e.q in s.workers {
      WorkKeepsInv(s, e.q, e);
    }
  }

  lemma {:induction false} EveryRunKeepsInv(s: Inbox, run: seq<Event>)
    requires Inv(s)
    ensures Inv(After(s, run))
  {
    if run != [] {
      EveryRunKeepsInv(s, run[..|run| - 1]);
      StepKeepsInv(After(s, run[..|run| - 1]), run[|run| - 1]);
    }
  }
}
