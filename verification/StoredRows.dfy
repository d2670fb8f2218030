/** Which rows of a turn are stored, and in what form, by the positions and fields of the raw rows. */
module StoredRows {
  import opened Transcript
  import opened Selection
  import opened Repair
  import opened FirstAnswers
  import opened SaveTurn

  predicate HasContent(c: Content) {
    c != NoContent && c != Str("") && c != Blocks([])
  }

  /** Whether row `i` is stored in a session that declares and answers the given ids: an assistant row that says or
      calls something, a user row that is no empty list, the first answer to an id that is called before it, and every
      row of another role. */
  ghost predicate Enters(rows: seq<Message>, i: nat, declared: set<string>, answered: set<string>)
    requires i < |rows|
  {
    match rows[i].role
    case Assistant => HasContent(rows[i].content) || rows[i].calls != []
    case User => rows[i].content != Blocks([])
    case Tool => FirstAnswer(rows, i, declared, answered)
    case OtherRole(_) => true
  }

  /** A block as it is stored: the data of an inline image is replaced by its path. */
  function StoredBlock(b: Block): Block {
    match b
    case ImageBlock(url, path) =>
      if "data:image/" <= url then TextBlock(if path != "" then "[image: " + path + "]" else "[image]") else b
    case _ => b
  }

  /** `out` is the stored form of `m`: its role, its ids and calls, and its content but for inline images and an empty
      tool result. Of its metadata a user row keeps the marker of its hidden context. */
  ghost predicate StoredAs(m: Message, out: Message) {
    && out == m.(content := out.content, meta := out.meta)
    && out.meta == Meta(false, if m.role == User then m.meta.marker else None, map[])
    && if !m.content.Blocks? || (m.role != Tool && m.role != User) then out.content == m.content
       else if m.content.blocks == [] then
         m.role == Tool ==> out.content == Blocks([TextBlock("[tool result omitted during persistence]")])
       else
         && out.content.Blocks? && |out.content.blocks| == |m.content.blocks|
         && forall j | 0 <= j < |m.content.blocks| :: out.content.blocks[j] == StoredBlock(m.content.blocks[j])
  }

  /** `out` is the stored forms of the rows at the positions `idx`, which are those of the rows that are stored. */
  ghost predicate StoredAt(rows: seq<Message>, out: seq<Message>, idx: seq<nat>, declared: set<string>,
                           answered: set<string>) {
    && Rising(idx, |rows|) && |out| == |idx|
    && (forall i | 0 <= i < |rows| :: i in idx <==> Enters(rows, i, declared, answered))
    && (forall k | 0 <= k < |idx| :: StoredAs(rows[idx[k]], out[k]))
  }

  lemma StoredForm(m: Message)
    ensures StoredAs(m, Stored(m))
  {
  }

  // ----- the ids that are known

  /** Every row that calls something is stored. */
  lemma {:induction false} SavedCalls(rows: seq<TurnRow>, declared: set<string>, answered: set<string>)
    ensures Declared(SavedRows(rows, declared, answered)) == Declared(Messages(rows))
  {
    if rows != [] {
      var m, rest := rows[0].m, rows[1..];
      assert Messages(rows) == [m] + Messages(rest);
      AnsweredCons(m, Messages(rest));
      if Storable(m, declared, answered) {
        StoredKeepsPairing(m, {}, {});
        var tail := SavedRows(rest, DeclaredAfter(m, declared), AnsweredAfter(m, answered));
        SavedCalls(rest, DeclaredAfter(m, declared), AnsweredAfter(m, answered));
        AnsweredCons(Stored(m), tail);
      } else {
        assert DeclaredAfter(m, {}) == {};
        SavedCalls(rest, declared, answered);
      }
    }
  }

  lemma {:induction false} SavedSplit(a: seq<TurnRow>, b: seq<TurnRow>, declared: set<string>, fulfilled: set<string>)
    ensures var head := SavedRows(a, declared, fulfilled);
            SavedRows(a + b, declared, fulfilled)
            == head + SavedRows(b, declared + Declared(head), fulfilled + Answered(head))
  {
    if a == [] {
      assert a + b == b;
      assert declared + Declared([]) == declared && fulfilled + Answered([]) == fulfilled;
    } else {
      assert (a + b)[0] == a[0] && (a + b)[1..] == a[1..] + b;
      var m := a[0].m;
      if Storable(m, declared, fulfilled) {
        var d, f := DeclaredAfter(m, declared), AnsweredAfter(m, fulfilled);
        SavedSplit(a[1..], b, d, f);
        StoredKeepsPairing(m, declared, fulfilled);
        StoredKeepsPairing(m, {}, {});
        var tail := SavedRows(a[1..], d, f);
        AnsweredCons(Stored(m), tail);
        assert d + Declared(tail) == declared + Declared([Stored(m)] + tail);
        assert f + Answered(tail) == fulfilled + Answered([Stored(m)] + tail);
      } else {
        SavedSplit(a[1..], b, declared, fulfilled);
      }
    }
  }

  lemma {:induction false} AnsweredStored(rows: seq<Message>, out: seq<Message>, idx: seq<nat>, declared: set<string>,
                                          answered: set<string>, id: string)
    requires StoredAt(rows, out, idx, declared, answered) && id != "" && id !in answered
    ensures id in Answered(out) <==> exists j :: 0 <= j < |rows| && AnswersAt(rows, j, id, declared)
  {
    if id in Answered(out) {
      var k := AnsweredWitness(out, id);
      assert idx[k] in idx && StoredAs(rows[idx[k]], out[k]);
      assert AnswersAt(rows, idx[k], id, declared);
    }
    if j :| 0 <= j < |rows| && AnswersAt(rows, j, id, declared) {
      var i := FirstOf(rows, j, declared, answered);
      assert i in idx;
      var k :| 0 <= k < |idx| && idx[k] == i;
      assert StoredAs(rows[idx[k]], out[k]);
      AnsweredAt(out, k);
    }
  }

  // ----- one row more

  lemma StoredStays(rows: seq<Message>, out: seq<Message>, idx: seq<nat>, m: Message, declared: set<string>,
                    answered: set<string>)
    requires StoredAt(rows, out, idx, declared, answered)
    ensures var all := rows + [m];
            && Rising(idx, |all|) && (forall k | 0 <= k < |idx| :: StoredAs(all[idx[k]], out[k])) && |rows| !in idx
            && (forall i | 0 <= i < |rows| :: i in idx <==> Enters(all, i, declared, answered))
  {
    RisingNext(idx, |rows|);
    var all := rows + [m];
    forall i | 0 <= i < |rows| ensures i in idx <==> Enters(all, i, declared, answered) {
      StillFirst(rows, m, i, declared, answered);
    }
  }

  lemma StoredSnoc(rows: seq<Message>, out: seq<Message>, idx: seq<nat>, m: Message, declared: set<string>,
                   answered: set<string>)
    requires StoredAt(rows, out, idx, declared, answered)
    ensures Enters(rows + [m], |rows|, declared, answered) ==>
              StoredAt(rows + [m], out + [Stored(m)], idx + [|rows|], declared, answered)
    ensures !Enters(rows + [m], |rows|, declared, answered) ==> StoredAt(rows + [m], out, idx, declared, answered)
  {
    StoredStays(rows, out, idx, m, declared, answered);
    StoredForm(m);
    RisingNext(idx, |rows|);
    assert forall i | 0 <= i < |rows| :: i in idx + [|rows|] <==> i in idx;
  }

  /** The next row is stored exactly if it enters. */
  lemma {:induction false} NextEnters(rows: seq<Message>, out: seq<Message>, idx: seq<nat>, m: Message,
                                      declared: set<string>, answered: set<string>)
    requires StoredAt(rows, out, idx, declared, answered) && Declared(out) == Declared(rows)
    ensures Storable(m, declared + Declared(out), answered + Answered(out))
       <==> Enters(rows + [m], |rows|, declared, answered)
  {
    if m.role == Tool {
      LastIsFirst(rows, m, declared, answered);
      if m.toolId != "" {
        CalledIds(rows, m.toolId, declared);
        if m.toolId !in answered {
          AnsweredStored(rows, out, idx, declared, answered, m.toolId);
        }
      }
    }
  }

  ghost predicate SavedAt(rows: seq<TurnRow>, idx: seq<nat>, declared: set<string>, answered: set<string>) {
    StoredAt(Messages(rows), SavedRows(rows, declared, answered), idx, declared, answered)
  }

  lemma {:induction false} MessagesSnoc(rows: seq<TurnRow>, row: TurnRow)
    ensures Messages(rows + [row]) == Messages(rows) + [row.m]
  {
    if rows == [] {
      assert rows + [row] == [row] && [row][1..] == [];
    } else {
      assert (rows + [row])[1..] == rows[1..] + [row];
      MessagesSnoc(rows[1..], row);
    }
  }

  lemma SavedNext(init: seq<TurnRow>, row: TurnRow, declared: set<string>, answered: set<string>)
    ensures var out := SavedRows(init, declared, answered);
            SavedRows(init + [row], declared, answered)
            == out + if Storable(row.m, declared + Declared(out), answered + Answered(out)) then [Stored(row.m)] else []
  {
    SavedSplit(init, [row], declared, answered);
    assert [row][1..] == [];
  }

  lemma SavedStep(init: seq<TurnRow>, row: TurnRow, idx: seq<nat>, declared: set<string>, answered: set<string>)
    returns (more: seq<nat>)
    requires SavedAt(init, idx, declared, answered)
    ensures SavedAt(init + [row], more, declared, answered)
  {
    var rows, out := Messages(init), SavedRows(init, declared, answered);
    SavedNext(init, row, declared, answered);
    MessagesSnoc(init, row);
    SavedCalls(init, declared, answered);
    NextEnters(rows, out, idx, row.m, declared, answered);
    StoredSnoc(rows, out, idx, row.m, declared, answered);
    if Enters(rows + [row.m], |rows|, declared, answered) {
      more := idx + [|rows|];
    } else {
      more := idx;
      assert out + [] == out;
    }
  }

  /** For any rows and any session: exactly the rows that enter are stored, in order and in their stored form. */
  lemma {:induction false} RowsStored(rows: seq<TurnRow>, declared: set<string>, answered: set<string>)
    returns (idx: seq<nat>)
    ensures SavedAt(rows, idx, declared, answered)
    decreases |rows|
  {
    if rows == [] {
      idx := [];
    } else {
      var init, row := rows[..|rows| - 1], rows[|rows| - 1];
      assert rows == init + [row];
      var before := RowsStored(init, declared, answered);
      idx := SavedStep(init, row, before, declared, answered);
    }
  }

  // ----- a saved turn

  /** The rows without the one at `at`. */
  function Without(rows: seq<Message>, at: nat): seq<Message>
    requires at < |rows|
  {
    rows[..at] + rows[at + 1..]
  }

  lemma WithoutMiddle(all: seq<Message>, a: seq<Message>, b: seq<Message>, at: nat)
    requires all == a + [CHECKPOINT_ROW] + b && at == |a|
    ensures at < |all| && all[at] == CHECKPOINT_ROW && Without(all, at) == a + b
  {
  }

  /** For any session and any turn: behind the session stand the stored forms of exactly the new rows that enter it, in
      order, and with a valid boundary the checkpoint row besides them. */
  lemma {:induction false} TurnIsStored(saved: seq<Message>, rows: seq<TurnRow>, skip: nat, boundary: Option<nat>,
                                        early: bool)
    returns (out: seq<Message>, idx: seq<nat>)
    requires (early ==> saved != []) && skip <= |rows| && (boundary.Some? ==> skip - 1 <= boundary.value <= |rows|)
    ensures StoredAt(Messages(rows[skip..]), out, idx, Declared(saved), Answered(saved))
    ensures var all := Persisted(saved, rows, skip, boundary, early);
            if boundary.None? then all == saved + out
            else
              var at := CheckpointIndex(saved, rows, skip, boundary.value, early);
              at < |all| && all[at] == CHECKPOINT_ROW && Without(all, at) == saved + out
  {
    idx := RowsStored(rows[skip..], Declared(saved), Answered(saved));
    out := SavedRows(rows[skip..], Declared(saved), Answered(saved));
    if boundary.None? {
      NoCheckpoint(saved, rows, skip, early);
    } else if boundary.value < skip {
      StoredBehindTheFront(saved, rows, skip, early);
    } else {
      StoredAround(saved, rows, skip, boundary.value, early);
    }
  }

  lemma {:induction false} StoredBehindTheFront(saved: seq<Message>, rows: seq<TurnRow>, skip: nat, early: bool)
    requires (early ==> saved != []) && 0 < skip <= |rows|
    ensures var (all, at) := (Persisted(saved, rows, skip, Some(skip - 1), early),
                              CheckpointIndex(saved, rows, skip, skip - 1, early));
            at < |all| && all[at] == CHECKPOINT_ROW
            && Without(all, at) == saved + SavedRows(rows[skip..], Declared(saved), Answered(saved))
  {
    var out := SavedRows(rows[skip..], Declared(saved), Answered(saved));
    InFrontOfTheRows(saved, rows, skip, early);
    AroundEarly(saved, out, EarlyPoint(saved, early), Persisted(saved, rows, skip, Some(skip - 1), early));
    FrontIndex(saved, rows, skip, early);
  }

  lemma {:induction false} FrontIndex(saved: seq<Message>, rows: seq<TurnRow>, skip: nat, early: bool)
    requires (early ==> saved != []) && 0 < skip <= |rows|
    ensures CheckpointIndex(saved, rows, skip, skip - 1, early) == EarlyPoint(saved, early)
  {
  }

  lemma AroundEarly(saved: seq<Message>, out: seq<Message>, at: nat, all: seq<Message>)
    requires at <= |saved| && all == saved[..at] + [CHECKPOINT_ROW] + (saved[at..] + out)
    ensures at < |all| && all[at] == CHECKPOINT_ROW && Without(all, at) == saved + out
  {
    WithoutMiddle(all, saved[..at], saved[at..] + out, at);
    assert saved[..at] + (saved[at..] + out) == saved + out;
  }

  lemma {:induction false} StoredAround(saved: seq<Message>, rows: seq<TurnRow>, skip: nat, boundary: nat, early: bool)
    requires (early ==> saved != []) && skip <= boundary <= |rows|
    ensures var (all, at) := (Persisted(saved, rows, skip, Some(boundary), early),
                              CheckpointIndex(saved, rows, skip, boundary, early));
            at < |all| && all[at] == CHECKPOINT_ROW
            && Without(all, at) == saved + SavedRows(rows[skip..], Declared(saved), Answered(saved))
  {
    var d, f := Declared(saved), Answered(saved);
    var below := SavedRows(rows[skip..boundary], d, f);
    var above := SavedRows(rows[boundary..], d + Declared(below), f + Answered(below));
    AmongTheRows(saved, rows, skip, boundary, early);
    SavedSplit(rows[skip..boundary], rows[boundary..], d, f);
    assert rows[skip..boundary] + rows[boundary..] == rows[skip..];
    WithoutMiddle(Persisted(saved, rows, skip, Some(boundary), early), saved + below, above, |saved + below|);
    Repair.Assoc(saved, below, above);
    LaterIndex(saved, rows, skip, boundary, early);
  }

  lemma {:induction false} LaterIndex(saved: seq<Message>, rows: seq<TurnRow>, skip: nat, boundary: nat, early: bool)
    requires (early ==> saved != []) && skip <= boundary <= |rows|
    ensures CheckpointIndex(saved, rows, skip, boundary, early)
         == |saved + SavedRows(rows[skip..boundary], Declared(saved), Answered(saved))|
  {
  }

  // ----- follow-ups

  /** The follow-up inputs that are acknowledged are those of the user rows that are stored. */
  lemma {:induction false} FollowupsAcknowledged(rows: seq<TurnRow>, declared: set<string>, answered: set<string>,
                                                 x: string)
    ensures x in SavedFollowups(rows, declared, answered)
       <==> x != "" && exists i :: 0 <= i < |rows| && rows[i].m.role == User && rows[i].m.content != Blocks([])
                                   && x in rows[i].followups
  {
    if rows != [] {
      var m, rest := rows[0].m, rows[1..];
      if Storable(m, declared, answered) {
        FollowupsAcknowledged(rest, DeclaredAfter(m, declared), AnsweredAfter(m, answered), x);
      } else {
        FollowupsAcknowledged(rest, declared, answered, x);
      }
      assert forall i | 0 <= i < |rest| :: rest[i] == rows[i + 1];
      assert forall i | 1 <= i < |rows| :: rows[i] == rest[i - 1];
    }
  }
}
