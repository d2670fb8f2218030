/** Replay behind a committed checkpoint: what a session replays after a run whose history was replaced by a
    summary is paired on its own, without the rows that the summary stands for. */
module Replay {
  import opened Transcript
  import opened Pairing
  import opened RunnerTurn
  import opened SaveTurn
  import opened RunBoundaries

  // ----- stored rows without what came before them

  /** Stored rows of anchored ones are legal with fewer calls and fewer results in front of them. */
  lemma {:induction false} SavedBehind(rows: seq<TurnRow>, declared: set<string>, fulfilled: set<string>,
                                       d: set<string>, f: set<string>)
    requires Anchored(Messages(rows), d) && f <= fulfilled
    ensures Legal(SavedRows(rows, declared, fulfilled), d, f)
  {
    if rows != [] {
      var m, rest := rows[0].m, rows[1..];
      assert Messages(rows)[1..] == Messages(rest);
      if Storable(m, declared, fulfilled) {
        StoredKeepsPairing(m, d, f);
        SavedBehind(rest, DeclaredAfter(m, declared), AnsweredAfter(m, fulfilled), DeclaredAfter(m, d),
                    AnsweredAfter(m, f));
        assert ([Stored(m)] + SavedRows(rest, DeclaredAfter(m, declared), AnsweredAfter(m, fulfilled)))[1..]
            == SavedRows(rest, DeclaredAfter(m, declared), AnsweredAfter(m, fulfilled));
      } else {
        NothingDeclared(m, declared, fulfilled, d);
        SavedBehind(rest, declared, fulfilled, d, f);
      }
    }
  }

  /** A row that is not stored calls nothing. */
  lemma NothingDeclared(m: Message, declared: set<string>, fulfilled: set<string>, d: set<string>)
    requires !Storable(m, declared, fulfilled)
    ensures DeclaredAfter(m, d) == d
  {
  }

  lemma CheckpointInFront(tail: seq<Message>)
    requires Legal(tail, {}, {})
    ensures Legal([CHECKPOINT_ROW] + tail, {}, {})
  {
    assert ([CHECKPOINT_ROW] + tail)[1..] == tail;
  }

  lemma UserInFront(m: Message, tail: seq<Message>)
    requires m.role == User && Legal(tail, {}, {})
    ensures Legal([m] + tail, {}, {})
  {
    assert ([m] + tail)[1..] == tail;
  }

  lemma FromIndex(a: seq<Message>, b: seq<Message>)
    ensures (a + [CHECKPOINT_ROW] + b)[|a|..] == [CHECKPOINT_ROW] + b
  {
  }

  /** For any session and any turn: if the raw rows from the boundary on answer calls that stand among them,
      the rows that are replayed from the committed checkpoint on are paired on their own. */
  lemma {:induction false} ReplayIsPaired(saved: seq<Message>, rows: seq<TurnRow>, skip: nat, boundary: nat,
                                          early: bool)
    requires (early ==> saved != []) && skip <= |rows| && skip - 1 <= boundary <= |rows|
    requires Anchored(Messages(rows[boundary..]), {})
    requires boundary < skip ==> rows[boundary].m.role == User && (early ==> saved[|saved| - 1].role == User)
    ensures var all := Persisted(saved, rows, skip, Some(boundary), early);
            var at := CheckpointIndex(saved, rows, skip, boundary, early);
            at < |all| && all[at] == CHECKPOINT_ROW && Legal(all[at..], {}, {})
  {
    ReplayStartsAtTheCheckpoint(saved, rows, skip, boundary, early);
    OneCheckpointAtTheBoundary(saved, rows, skip, boundary, early);
    if boundary < skip {
      EarlyReplay(saved, rows, skip, early);
    } else {
      LaterReplay(saved, rows, skip, boundary, early);
    }
  }

  lemma {:induction false} LaterReplay(saved: seq<Message>, rows: seq<TurnRow>, skip: nat, boundary: nat, early: bool)
    requires (early ==> saved != []) && skip <= boundary <= |rows|
    requires Anchored(Messages(rows[boundary..]), {})
    ensures var at := CheckpointIndex(saved, rows, skip, boundary, early);
            at <= |Persisted(saved, rows, skip, Some(boundary), early)|
            && Legal(Persisted(saved, rows, skip, Some(boundary), early)[at..], {}, {})
  {
    var d, f := Declared(saved), Answered(saved);
    var below := SavedRows(rows[skip..boundary], d, f);
    var tail := SavedRows(rows[boundary..], d + Declared(below), f + Answered(below));
    AmongTheRows(saved, rows, skip, boundary, early);
    SavedBehind(rows[boundary..], d + Declared(below), f + Answered(below), {}, {});
    FromIndex(saved + below, tail);
    CheckpointInFront(tail);
  }

  lemma {:induction false} EarlyReplay(saved: seq<Message>, rows: seq<TurnRow>, skip: nat, early: bool)
    requires (early ==> saved != [] && saved[|saved| - 1].role == User) && 0 < skip <= |rows|
    requires Anchored(Messages(rows[skip - 1..]), {}) && rows[skip - 1].m.role == User
    ensures var at := CheckpointIndex(saved, rows, skip, skip - 1, early);
            at <= |Persisted(saved, rows, skip, Some(skip - 1), early)|
            && Legal(Persisted(saved, rows, skip, Some(skip - 1), early)[at..], {}, {})
  {
    var at := EarlyPoint(saved, early);
    var tail := SavedRows(rows[skip..], Declared(saved), Answered(saved));
    InFrontOfTheRows(saved, rows, skip, early);
    assert rows[skip - 1..][1..] == rows[skip..];
    assert Messages(rows[skip - 1..])[1..] == Messages(rows[skip..]);
    SavedBehind(rows[skip..], Declared(saved), Answered(saved), {}, {});
    FromIndex(saved[..at], saved[at..] + tail);
    if early {
      assert saved[at..] == [saved[|saved| - 1]];
      UserInFront(saved[|saved| - 1], tail);
    } else {
      assert saved[at..] + tail == tail;
    }
    CheckpointInFront(saved[at..] + tail);
  }

  // ----- the turn of a run

  /** For every run that is summarized at round `k`, at any later point `j`, with any closing rows `last` that are
      no tool results, and for any session into which the turn is saved: what is replayed from the committed
      checkpoint on is paired on its own. `x` and `y` are the states of the run at the two points. */
  lemma {:induction false} ReplayOfARunIsPaired(setup: Setup, r: Reference, rounds: seq<Round>, k: nat, x: Reference,
                                                j: nat, y: Reference, last: seq<Message>, saved: seq<Message>,
                                                rows: seq<TurnRow>, skip: nat, early: bool)
    requires InstructionsOnly(setup) && Sound(r) && RunOk(setup, r, rounds) && k <= j <= |rounds|
    requires StateAt(setup, r, rounds, k) == Some(x) && StateAt(setup, r, rounds, j) == Some(y)
    requires Messages(rows) == y.messages + last && forall m | m in last :: m.role != Tool
    requires (early ==> saved != []) && skip <= |rows| && skip - 1 <= x.sent <= |rows|
    requires x.sent < skip ==> rows[x.sent].m.role == User && (early ==> saved[|saved| - 1].role == User)
    ensures var all := Persisted(saved, rows, skip, Some(x.sent), early);
            var at := CheckpointIndex(saved, rows, skip, x.sent, early);
            at < |all| && all[at] == CHECKPOINT_ROW && Legal(all[at..], {}, {})
  {
    EveryBoundaryIsClean(setup, r, rounds, k, j);
    RowsAreAnchored(y.messages, last, rows, x.sent);
    ReplayIsPaired(saved, rows, skip, x.sent, early);
  }

  lemma {:induction false} RowsAreAnchored(msgs: seq<Message>, last: seq<Message>, rows: seq<TurnRow>, b: nat)
    requires CleanFrom(msgs, b) && Messages(rows) == msgs + last && forall m | m in last :: m.role != Tool
    ensures Anchored(Messages(rows[b..]), {})
  {
    NoToolsAnchored(last, {});
    TailAppended(msgs, last, b);
    MessagesFrom(rows, b);
  }
}
