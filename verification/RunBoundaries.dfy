/** Where a run may be cut: behind every boundary that a request left, results answer calls that stand there too. */
module RunBoundaries {
  import opened Transcript
  import opened Pairing
  import opened Requests
  import opened RunnerTurn

  // ----- the rows of a run

  lemma ClosedIsAnchored(d: seq<Message>)
    requires Closed(d)
    ensures Anchored(d, {})
  {
    LegalIffAnchoredOnce(d, {}, {});
  }

  lemma {:induction false} AnchoredMoreBefore(msgs: seq<Message>, declared: set<string>, d: set<string>)
    requires Anchored(msgs, declared)
    ensures Anchored(msgs, declared + d)
  {
    if msgs != [] {
      AnchoredMoreBefore(msgs[1..], DeclaredAfter(msgs[0], declared), d);
      assert DeclaredAfter(msgs[0], declared + d) == DeclaredAfter(msgs[0], declared) + d;
    }
  }

  lemma AnchoredAppend(a: seq<Message>, b: seq<Message>)
    requires Anchored(a, {}) && Anchored(b, {})
    ensures Anchored(a + b, {})
  {
    AnchoredMoreBefore(b, {}, Declared(a));
    AnchoredSplit(a, b, {});
  }

  lemma {:induction false} NoToolsAnchored(rows: seq<Message>, declared: set<string>)
    requires forall m | m in rows :: m.role != Tool
    ensures Anchored(rows, declared)
  {
    if rows != [] {
      assert rows == [rows[0]] + rows[1..];
      NoToolsAnchored(rows[1..], DeclaredAfter(rows[0], declared));
    }
  }

  lemma SnapshotAppends(setup: Setup, r: Reference, injected: seq<Message>)
    requires Sound(r) && AllUser(injected)
    ensures Ready(setup, r, injected).messages == r.messages + ReadyRows(setup, r, injected)
    ensures Anchored(ReadyRows(setup, r, injected), {})
  {
    ReadyParts(setup, r, injected);
    NoToolsAnchored(ReadyRows(setup, r, injected), {});
  }

  lemma ResponseAppended(setup: Setup, r: Reference, outcome: Outcome)
    requires InBounds(r) && !PlainTail(r.messages) && OutcomeOk(Whole(r), outcome)
    ensures Responded(setup, r, outcome).messages == r.messages + Added(setup.norm, outcome)
    ensures Anchored(Added(setup.norm, outcome), {})
  {
    RespondedParts(setup, r, outcome);
    AddedClosed(setup.norm, Whole(r), outcome);
    ClosedIsAnchored(Added(setup.norm, outcome));
  }

  lemma RequestKeepsMessages(setup: Setup, r: Reference, pressure: Pressure)
    requires InBounds(r) && Requested(setup, r, pressure).Some?
    ensures Requested(setup, r, pressure).value.messages == r.messages
  {
  }

  /** A round only appends rows, and their results answer calls among them. */
  lemma RoundAppends(setup: Setup, r: Reference, round: Round) returns (rows: seq<Message>)
    requires InstructionsOnly(setup) && Sound(r) && RoundOk(setup, r, round) && Next(setup, r, round).Some?
    ensures Next(setup, r, round).value.messages == r.messages + rows && Anchored(rows, {})
  {
    var ready := Ready(setup, r, round.injected);
    var o := Requested(setup, ready, round.pressure).value;
    ReadySound(setup, r, round.injected);
    SnapshotAppends(setup, r, round.injected);
    RequestKeepsMessages(setup, ready, round.pressure);
    ResponseAppended(setup, o, round.outcome);
    var snapshot, added := ReadyRows(setup, r, round.injected), Added(setup.norm, round.outcome);
    AnchoredAppend(snapshot, added);
    Assoc(r.messages, snapshot, added);
    rows := snapshot + added;
  }

  lemma TailAppended(msgs: seq<Message>, rows: seq<Message>, b: nat)
    requires b <= |msgs| && Anchored(msgs[b..], {}) && Anchored(rows, {})
    ensures Anchored((msgs + rows)[b..], {})
  {
    AnchoredAppend(msgs[b..], rows);
    assert (msgs + rows)[b..] == msgs[b..] + rows;
  }

  /** From row `b` on every result answers a call that stands there too. */
  predicate CleanFrom(msgs: seq<Message>, b: nat) {
    b <= |msgs| && Anchored(msgs[b..], {})
  }

  lemma CleanAfter(setup: Setup, r: Reference, round: Round, b: nat)
    requires InstructionsOnly(setup) && Sound(r) && RoundOk(setup, r, round) && Next(setup, r, round).Some?
    requires CleanFrom(r.messages, b)
    ensures CleanFrom(Next(setup, r, round).value.messages, b)
  {
    var rows := RoundAppends(setup, r, round);
    TailAppended(r.messages, rows, b);
  }

  lemma RoundIsOk(setup: Setup, r: Reference, rounds: seq<Round>, j: nat)
    requires InBounds(r) && RunOk(setup, r, rounds) && j < |rounds| && StateAt(setup, r, rounds, j).Some?
    ensures RoundOk(setup, StateAt(setup, r, rounds, j).value, rounds[j])
  {
    assert RoundOkAt(setup, r, rounds, j);
  }

  /** The transcript at point `j` of a run, if the run gets there. */
  ghost predicate CleanAt(setup: Setup, r: Reference, rounds: seq<Round>, j: nat, b: nat)
    requires InBounds(r) && j <= |rounds|
  {
    var o := StateAt(setup, r, rounds, j);
    o.Some? ==> CleanFrom(o.value.messages, b)
  }

  ghost predicate KeptClean(setup: Setup, r: Reference, rounds: seq<Round>, j: nat, b: nat)
    requires InBounds(r) && j < |rounds|
  {
    CleanAt(setup, r, rounds, j, b) ==> CleanAt(setup, r, rounds, j + 1, b)
  }

  lemma {:induction false} StaysClean(setup: Setup, r: Reference, rounds: seq<Round>, j: nat, b: nat)
    requires InstructionsOnly(setup) && Sound(r) && RunOk(setup, r, rounds) && j < |rounds|
    ensures KeptClean(setup, r, rounds, j, b)
  {
    var o := StateAt(setup, r, rounds, j);
    if CleanAt(setup, r, rounds, j, b) && StateAt(setup, r, rounds, j + 1).Some? {
      EveryStateIsSound(setup, r, rounds, j);
      RoundIsOk(setup, r, rounds, j);
      CleanAfter(setup, o.value, rounds[j], b);
    }
  }

  lemma {:induction false} CleanOnward(setup: Setup, r: Reference, rounds: seq<Round>, k: nat, j: nat, b: nat)
    requires InBounds(r) && k <= j <= |rounds| && CleanAt(setup, r, rounds, k, b)
    requires forall i | k <= i < j :: KeptClean(setup, r, rounds, i, b)
    ensures CleanAt(setup, r, rounds, j, b)
  {
    if k < j {
      CleanOnward(setup, r, rounds, k, j - 1, b);
      assert KeptClean(setup, r, rounds, j - 1, b);
    }
  }

  lemma {:induction false} CleanNow(setup: Setup, r: Reference, rounds: seq<Round>, k: nat)
    requires InstructionsOnly(setup) && Sound(r) && RunOk(setup, r, rounds) && k <= |rounds|
    requires StateAt(setup, r, rounds, k).Some?
    ensures CleanAt(setup, r, rounds, k, StateAt(setup, r, rounds, k).value.sent)
  {
    EveryStateIsSound(setup, r, rounds, k);
    ClosedIsAnchored(Delta(StateAt(setup, r, rounds, k).value));
  }

  /** In every run: the rows behind what was sent before round `k` answer calls that stand among them, at every
      later point `j`. So every boundary of a checkpoint cuts between whole exchanges. */
  lemma {:induction false} EveryBoundaryIsClean(setup: Setup, r: Reference, rounds: seq<Round>, k: nat, j: nat)
    requires InstructionsOnly(setup) && Sound(r) && RunOk(setup, r, rounds) && k <= j <= |rounds|
    requires StateAt(setup, r, rounds, k).Some?
    ensures CleanAt(setup, r, rounds, j, StateAt(setup, r, rounds, k).value.sent)
  {
    var b := StateAt(setup, r, rounds, k).value.sent;
    CleanNow(setup, r, rounds, k);
    forall i | k <= i < j
      ensures KeptClean(setup, r, rounds, i, b)
    {
      StaysClean(setup, r, rounds, i, b);
    }
    CleanOnward(setup, r, rounds, k, j, b);
  }
}
