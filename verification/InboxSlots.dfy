/** The slots of the agent loop for one session, as an object whose methods make the steps of the model. */
module InboxSlots {
  import opened Transcript
  import opened SessionInbox

  /** What the loop keeps under one session key: the registered queue, the put-off turns, and the queues and
      worker tasks that exist. */
  class SessionSlots {
    var pendingQueue: Option<nat>
    var deferredTurns: seq<Msg>
    var queues: map<nat, seq<Msg>>
    var workers: map<nat, Phase>
    var created: nat
    ghost var log: seq<Entry>

    ghost function View(): Inbox
      reads this
    {
      Inbox(pendingQueue, queues, workers, deferredTurns, created, log)
    }

    constructor ()
      ensures View() == NO_SESSION
    {
      pendingQueue, deferredTurns, queues, workers, created, log := None, [], map[], map[], 0, [];
    }

    method Enqueue(m: Msg)
      requires pendingQueue.Some? ==> pendingQueue.value in queues
      modifies this
      ensures View() == Step(old(View()), Arrive(m))
    {
      if m.idleOnly && pendingQueue.Some? {
        deferredTurns := deferredTurns + [m];
        log := log + [PutOff(m)];
        return;
      }
      log := log + [Admitted(m)];
      if pendingQueue.Some? {
        queues := queues[pendingQueue.value := queues[pendingQueue.value] + [m]];
        return;
      }
      queues := queues[created := [m]];
      pendingQueue := Some(created);
      workers := workers[created := Idle];
      created := created + 1;
    }

    /** One turn of the worker loop, up to the start of the next message or the end of the worker. */
    method RunSessionQueue(q: nat)
      requires q in queues && q in workers && workers[q].Idle?
      modifies this
      ensures View() == Step(old(View()), NextMessage(q))
    {
      if pendingQueue != Some(q) {
        workers := workers - {q};
        return;
      }
      var m;
      if queues[q] != [] {
        m := queues[q][0];
        queues := queues[q := queues[q][1..]];
        log := log + [Started(m)];
      } else {
        if deferredTurns == [] {
          workers := workers - {q};
          pendingQueue := None;
          return;
        }
        m := deferredTurns[0];
        deferredTurns := deferredTurns[1..];
        log := log + [Resumed(m)];
      }
      workers := workers[q := Running(m)];
    }

    /** The start of a drain: everything in the queue now, behind a message already taken. */
    method TakeSnapshot(q: nat)
      requires q in queues && q in workers && (workers[q].Running? || workers[q].Held?)
      modifies this
      ensures View() == Step(old(View()), DrainBegins(q))
    {
      var pending := if workers[q].Held? then [workers[q].first] else [];
      var size := |queues[q]|;
      ghost var first, items := pending, queues[q];
      for taken := 0 to size
        invariant q in queues && pending + queues[q] == first + items && |queues[q]| == size - taken
        invariant queues == old(queues)[q := queues[q]]
        invariant pendingQueue == old(pendingQueue) && deferredTurns == old(deferredTurns) && workers == old(workers)
        invariant created == old(created) && log == old(log)
      {
        assert pending + queues[q] == pending + [queues[q][0]] + queues[q][1..];
        pending := pending + [queues[q][0]];
        queues := queues[q := queues[q][1..]];
      }
      assert queues[q] == [] && pending == first + items;
      assert [] + items == items;
      workers := workers[q := Draining(workers[q].root, pending, 0)];
    }

    /** The next message is converted unless it must be a turn of its own. */
    method Convert(q: nat) returns (more: bool)
      requires q in workers && workers[q].Draining?
      modifies this
      ensures View() == Step(old(View()), ConvertNext(q))
      ensures more == !Barrier(old(workers[q].snapshot), old(workers[q].converted))
    {
      var Draining(root, snapshot, k) := workers[q];
      more := k < |snapshot| && snapshot[k].injectable;
      if more {
        workers := workers[q := Draining(root, snapshot, k + 1)];
      }
    }

    /** The end of a drain: the converted prefix is committed; everything else goes back into the queue in
        front of the messages that arrived meanwhile. */
    method FinishDrain(q: nat, failed: bool)
      requires q in queues && q in workers && workers[q].Draining?
      requires workers[q].converted <= |workers[q].snapshot|
      requires failed || Barrier(workers[q].snapshot, workers[q].converted)
      modifies this
      ensures View() == Step(old(View()), if failed then ConversionFails(q) else DrainEnds(q))
    {
      var Draining(root, snapshot, k) := workers[q];
      var consumed := if failed then 0 else k;
      workers := workers[q := Running(root)];
      log := InjectedAll(log, snapshot[..consumed]);
      var unconsumed := snapshot[consumed..];
      if unconsumed != [] {
        var back := unconsumed + queues[q];
        queues := queues[q := []];
        for i := 0 to |back|
          invariant q in queues && queues[q] == back[..i]
          invariant queues == old(queues)[q := queues[q]]
          invariant pendingQueue == old(pendingQueue) && deferredTurns == old(deferredTurns) && created == old(created)
          invariant workers == old(workers)[q := Running(root)] && log == InjectedAll(old(log), snapshot[..consumed])
        {
          queues := queues[q := queues[q] + [back[i]]];
        }
        assert back[..|back|] == back;
      } else {
        assert unconsumed + queues[q] == queues[q];
      }
      assert queues == old(queues)[q := snapshot[consumed..] + old(queues)[q]];
    }
  }
}
