/** Persisting one turn: rows are filtered, tool results stay paired with their calls, and a summary
    checkpoint is placed against raw transcript indices while rows are being dropped. */
module SaveTurn {
  import opened Transcript
  import opened Repair
  import opened CompactionState

  /** One row of the finished turn with the follow-up inputs that it carries. */
  datatype TurnRow = TurnRow(m: Message, followups: set<string>)

  function Messages(rows: seq<TurnRow>): (r: seq<Message>)
    ensures |r| == |rows|
  {
    if rows == [] then [] else [rows[0].m] + Messages(rows[1..])
  }

  const CHECKPOINT_ROW: Message := Row(User, Str(SUMMARY_CONTINUATION_TEXT)).(hidden := true)
  const DATA_IMAGE: string := "data:image/"
  const OMITTED_RESULT: string := "[tool result omitted during persistence]"

  function ImagePlaceholder(path: string): string {
    if path != "" then "[image: " + path + "]" else "[image]"
  }

  function SanitizedBlock(b: Block): Block {
    if b.ImageBlock? && DATA_IMAGE <= b.url then TextBlock(ImagePlaceholder(b.path)) else b
  }

  function Sanitized(blocks: seq<Block>): (r: seq<Block>)
    ensures |r| == |blocks|
  {
    seq(|blocks|, i requires 0 <= i < |blocks| => SanitizedBlock(blocks[i]))
  }

  /** The stored form of a row: internal metadata goes, except the runtime-context marker of user input. */
  function Stored(m: Message): Message {
    m.(content := if !m.content.Blocks? || (m.role != Tool && m.role != User) then m.content
                  else if m.content.blocks == [] && m.role == Tool then Blocks([TextBlock(OMITTED_RESULT)])
                  else Blocks(Sanitized(m.content.blocks)),
       meta := if m.role == User then Meta(false, m.meta.marker, map[]) else NO_META)
  }

  /** Whether a row is stored, given the ids that earlier rows declare and answer. */
  predicate Storable(m: Message, declared: set<string>, fulfilled: set<string>) {
    match m.role
    case Assistant => Truthy(m.content) || m.calls != []
    case Tool => Answers(m, declared, fulfilled)
    case User => m.content != Blocks([])
    case _ => true
  }

  /** The stored rows of a list of turn rows. */
  function SavedRows(rows: seq<TurnRow>, declared: set<string>, fulfilled: set<string>): seq<Message> {
    if rows == [] then []
    else
      var m := rows[0].m;
      if Storable(m, declared, fulfilled)
      then [Stored(m)] + SavedRows(rows[1..], DeclaredAfter(m, declared), AnsweredAfter(m, fulfilled))
      else SavedRows(rows[1..], declared, fulfilled)
  }

  /** The follow-up inputs that are stored with their rows. */
  function SavedFollowups(rows: seq<TurnRow>, declared: set<string>, fulfilled: set<string>): set<string> {
    if rows == [] then {}
    else
      var m := rows[0].m;
      if Storable(m, declared, fulfilled)
      then (if m.role == User then rows[0].followups - {""} else {})
           + SavedFollowups(rows[1..], DeclaredAfter(m, declared), AnsweredAfter(m, fulfilled))
      else SavedFollowups(rows[1..], declared, fulfilled)
  }

  /** What the persistence loop appends from row index `i` on: a checkpoint row comes before the row at
      the boundary, whether or not that row is stored. */
  function Written(rows: seq<TurnRow>, i: nat, boundary: Option<nat>, declared: set<string>,
                   fulfilled: set<string>): seq<Message> {
    (if boundary == Some(i) then [CHECKPOINT_ROW] else [])
    + (if rows == [] then []
       else
         var m := rows[0].m;
         if Storable(m, declared, fulfilled)
         then [Stored(m)] + Written(rows[1..], i + 1, boundary, DeclaredAfter(m, declared), AnsweredAfter(m, fulfilled))
         else Written(rows[1..], i + 1, boundary, declared, fulfilled))
  }

  lemma {:induction false} MessagesFrom(rows: seq<TurnRow>, k: nat)
    requires k <= |rows|
    ensures Messages(rows[k..]) == Messages(rows)[k..]
  {
    if k == 0 {
      assert rows[0..] == rows;
    } else {
      MessagesFrom(rows[1..], k - 1);
      assert rows[k..] == rows[1..][k - 1..];
    }
  }

  // ----- pairing

  lemma StoredKeepsPairing(m: Message, declared: set<string>, answered: set<string>)
    ensures DeclaredAfter(Stored(m), declared) == DeclaredAfter(m, declared)
    ensures AnsweredAfter(Stored(m), answered) == AnsweredAfter(m, answered)
    ensures Stored(m).role == m.role && Stored(m).toolId == m.toolId
  {
  }

  /** Saved rows answer declared calls only, and each call once. */
  lemma {:induction false} SavedIsLegal(rows: seq<TurnRow>, declared: set<string>, fulfilled: set<string>)
    ensures Legal(SavedRows(rows, declared, fulfilled), declared, fulfilled)
  {
    if rows != [] {
      var m := rows[0].m;
      if Storable(m, declared, fulfilled) {
        StoredKeepsPairing(m, declared, fulfilled);
        var d, f := DeclaredAfter(m, declared), AnsweredAfter(m, fulfilled);
        SavedIsLegal(rows[1..], d, f);
        assert SavedRows(rows, declared, fulfilled)[1..] == SavedRows(rows[1..], d, f);
      } else {
        SavedIsLegal(rows[1..], declared, fulfilled);
      }
    }
  }

  // ----- the checkpoint

  lemma {:induction false} WrittenWithout(rows: seq<TurnRow>, i: nat, boundary: Option<nat>, declared: set<string>,
                                          fulfilled: set<string>)
    requires boundary.Some? ==> boundary.value < i || i + |rows| < boundary.value
    ensures Written(rows, i, boundary, declared, fulfilled) == SavedRows(rows, declared, fulfilled)
  {
    if rows != [] {
      var m := rows[0].m;
      if Storable(m, declared, fulfilled) {
        WrittenWithout(rows[1..], i + 1, boundary, DeclaredAfter(m, declared), AnsweredAfter(m, fulfilled));
      } else {
        WrittenWithout(rows[1..], i + 1, boundary, declared, fulfilled);
      }
    }
  }

  /** The checkpoint stands exactly between the stored rows below the raw boundary and the stored rows
      from it on, however many rows are dropped on either side. */
  lemma {:induction false} CheckpointSplits(low: seq<TurnRow>, high: seq<TurnRow>, i: nat, declared: set<string>,
                                            fulfilled: set<string>)
    ensures var below := SavedRows(low, declared, fulfilled);
            Written(low + high, i, Some(i + |low|), declared, fulfilled)
            == below + [CHECKPOINT_ROW]
               + SavedRows(high, declared + Declared(below), fulfilled + Answered(below))
  {
    if low == [] {
      assert low + high == high;
      assert declared + Declared([]) == declared && fulfilled + Answered([]) == fulfilled;
      AtBoundary(high, i, declared, fulfilled);
    } else {
      var row, rest := low[0], low[1..];
      var keep := Storable(row.m, declared, fulfilled);
      var d := if keep then DeclaredAfter(row.m, declared) else declared;
      var f := if keep then AnsweredAfter(row.m, fulfilled) else fulfilled;
      assert low == [row] + rest && low + high == [row] + (rest + high);
      CheckpointSplits(rest, high, i + 1, d, f);
      WrittenCons(row, rest + high, i, Some(i + |low|), declared, fulfilled);
      SavedCons(row, rest, declared, fulfilled);
      var saved := SavedRows(rest, d, f);
      KnownAfter(row.m, saved, declared, fulfilled);
      Regrouped(if keep then [Stored(row.m)] else [], saved,
                SavedRows(high, d + Declared(saved), f + Answered(saved)));
    }
  }

  lemma Regrouped(a: seq<Message>, b: seq<Message>, c: seq<Message>)
    ensures [] + (a + (b + [CHECKPOINT_ROW] + c)) == (a + b) + [CHECKPOINT_ROW] + c
  {
  }

  /** The ids known after a stored row and the rows behind it. */
  lemma KnownAfter(m: Message, tail: seq<Message>, declared: set<string>, fulfilled: set<string>)
    ensures var all := [Stored(m)] + tail;
            && DeclaredAfter(m, declared) + Declared(tail) == declared + Declared(all)
            && AnsweredAfter(m, fulfilled) + Answered(tail) == fulfilled + Answered(all)
    ensures [] + tail == tail
  {
    StoredKeepsPairing(m, {}, {});
    AnsweredCons(Stored(m), tail);
    assert ([Stored(m)] + tail)[1..] == tail;
  }

  lemma AtBoundary(rows: seq<TurnRow>, i: nat, declared: set<string>, fulfilled: set<string>)
    ensures Written(rows, i, Some(i), declared, fulfilled) == [CHECKPOINT_ROW] + SavedRows(rows, declared, fulfilled)
  {
    if rows != [] {
      var m := rows[0].m;
      WrittenWithout(rows[1..], i + 1, Some(i), DeclaredAfter(m, declared), AnsweredAfter(m, fulfilled));
      WrittenWithout(rows[1..], i + 1, Some(i), declared, fulfilled);
    }
  }

  /** A checkpoint boundary counts only when it lies between the row before the new ones and the end. */
  function ValidBoundary(checkpoint: Option<Checkpoint>, skip: nat, count: nat): Option<nat> {
    if checkpoint.Some? && skip - 1 <= checkpoint.value.boundary <= count then Some(checkpoint.value.boundary) else None
  }

  function NewRows(rows: seq<TurnRow>, skip: nat): seq<TurnRow> {
    if skip <= |rows| then rows[skip..] else []
  }

  /** Where a checkpoint goes whose boundary is the row before the new ones: behind everything, or in
      front of the input row when that row is already the last one of the session. */
  function EarlyPoint(saved: seq<Message>, early: bool): nat
    requires early ==> saved != []
  {
    |saved| - (if early then 1 else 0)
  }

  function WithCheckpoint(saved: seq<Message>, at: nat): seq<Message>
    requires at <= |saved|
  {
    saved[..at] + [CHECKPOINT_ROW] + saved[at..]
  }

  /** The session rows when the loop over the new rows starts. */
  function Opened(saved: seq<Message>, skip: nat, boundary: Option<nat>, early: bool): seq<Message>
    requires early ==> saved != []
  {
    if boundary.Some? && boundary.value == skip - 1 then WithCheckpoint(saved, EarlyPoint(saved, early)) else saved
  }

  /** The session rows after a turn is saved. */
  function Persisted(saved: seq<Message>, rows: seq<TurnRow>, skip: nat, boundary: Option<nat>,
                     early: bool): seq<Message>
    requires early ==> saved != []
  {
    Opened(saved, skip, boundary, early)
        + Written(NewRows(rows, skip), skip, boundary, Declared(saved), Answered(saved))
    + (if skip > |rows| && boundary == Some(|rows|) then [CHECKPOINT_ROW] else [])
  }

  /** With new rows to look at, exactly one checkpoint is committed. The session rows (without an early
      input row, when the boundary is in front of it) and the stored rows below the boundary precede it;
      the early input row and the stored rows from the boundary on follow it. */
  lemma {:induction false} OneCheckpointAtTheBoundary(saved: seq<Message>, rows: seq<TurnRow>, skip: nat,
                                                      boundary: nat, early: bool)
    requires (early ==> saved != []) && skip <= |rows| && skip - 1 <= boundary <= |rows|
    ensures boundary == skip - 1 ==>
              Persisted(saved, rows, skip, Some(boundary), early)
              == saved[..EarlyPoint(saved, early)] + [CHECKPOINT_ROW]
                 + (saved[EarlyPoint(saved, early)..] + SavedRows(rows[skip..], Declared(saved), Answered(saved)))
    ensures boundary >= skip ==>
              var (d, f) := (Declared(saved), Answered(saved));
              var below := SavedRows(rows[skip..boundary], d, f);
              Persisted(saved, rows, skip, Some(boundary), early)
              == (saved + below) + [CHECKPOINT_ROW]
                 + SavedRows(rows[boundary..], d + Declared(below), f + Answered(below))
  {
    if boundary == skip - 1 {
      InFrontOfTheRows(saved, rows, skip, early);
    } else {
      AmongTheRows(saved, rows, skip, boundary, early);
    }
  }

  lemma {:induction false} InFrontOfTheRows(saved: seq<Message>, rows: seq<TurnRow>, skip: nat, early: bool)
    requires (early ==> saved != []) && 0 < skip <= |rows|
    ensures Persisted(saved, rows, skip, Some(skip - 1), early)
         == saved[..EarlyPoint(saved, early)] + [CHECKPOINT_ROW]
            + (saved[EarlyPoint(saved, early)..] + SavedRows(rows[skip..], Declared(saved), Answered(saved)))
  {
    var d, f, at := Declared(saved), Answered(saved), EarlyPoint(saved, early);
    WrittenWithout(rows[skip..], skip, Some(skip - 1), d, f);
    Regroup(saved[..at], CHECKPOINT_ROW, saved[at..], SavedRows(rows[skip..], d, f));
  }

  lemma {:induction false} AmongTheRows(saved: seq<Message>, rows: seq<TurnRow>, skip: nat, boundary: nat, early: bool)
    requires (early ==> saved != []) && skip <= boundary <= |rows|
    ensures var (d, f) := (Declared(saved), Answered(saved));
            var below := SavedRows(rows[skip..boundary], d, f);
            Persisted(saved, rows, skip, Some(boundary), early)
            == (saved + below) + [CHECKPOINT_ROW]
               + SavedRows(rows[boundary..], d + Declared(below), f + Answered(below))
  {
    var low, high := rows[skip..boundary], rows[boundary..];
    assert rows[skip..] == low + high;
    PersistedAmong(saved, rows, skip, boundary, early);
    BehindTheSession(saved, low, high, skip);
  }

  lemma {:induction false} PersistedAmong(saved: seq<Message>, rows: seq<TurnRow>, skip: nat, boundary: nat,
                                          early: bool)
    requires (early ==> saved != []) && skip <= boundary <= |rows|
    ensures Persisted(saved, rows, skip, Some(boundary), early)
         == saved + Written(rows[skip..], skip, Some(boundary), Declared(saved), Answered(saved)) + []
  {
  }

  lemma {:induction false} BehindTheSession(saved: seq<Message>, low: seq<TurnRow>, high: seq<TurnRow>, skip: nat)
    ensures var (d, f) := (Declared(saved), Answered(saved));
            var below := SavedRows(low, d, f);
            saved + Written(low + high, skip, Some(skip + |low|), d, f) + []
            == (saved + below) + [CHECKPOINT_ROW] + SavedRows(high, d + Declared(below), f + Answered(below))
  {
    var d, f := Declared(saved), Answered(saved);
    var below := SavedRows(low, d, f);
    CheckpointSplits(low, high, skip, d, f);
    Associate(saved, below, [CHECKPOINT_ROW], SavedRows(high, d + Declared(below), f + Answered(below)));
  }

  lemma Regroup(a: seq<Message>, c: Message, b: seq<Message>, rest: seq<Message>)
    ensures a + [c] + b + rest + [] == a + [c] + (b + rest)
  {
  }

  lemma Associate(a: seq<Message>, b: seq<Message>, c: seq<Message>, d: seq<Message>)
    ensures a + (b + c + d) + [] == (a + b) + c + d
  {
  }

  /** Without a valid boundary the stored rows are appended and no checkpoint is committed. */
  lemma NoCheckpoint(saved: seq<Message>, rows: seq<TurnRow>, skip: nat, early: bool)
    requires early ==> saved != []
    ensures Persisted(saved, rows, skip, None, early)
         == saved + SavedRows(NewRows(rows, skip), Declared(saved), Answered(saved))
  {
    WrittenWithout(NewRows(rows, skip), skip, None, Declared(saved), Answered(saved));
  }

  /** One index past the last valid one, the checkpoint is committed twice. */
  lemma TwoCheckpointsPastTheEnd(saved: seq<Message>, rows: seq<TurnRow>, early: bool)
    requires early ==> saved != []
    ensures Persisted(saved, rows, |rows| + 1, Some(|rows|), early)
         == WithCheckpoint(saved, EarlyPoint(saved, early)) + [CHECKPOINT_ROW]
  {
  }

  // ----- the session invariant

  /** The checkpoint row takes no part in pairing. */
  lemma CheckpointIsNeutral(a: seq<Message>, b: seq<Message>)
    ensures Legal(a + [CHECKPOINT_ROW] + b, {}, {}) <==> Legal(a + b, {}, {})
    ensures Declared(a + [CHECKPOINT_ROW] + b) == Declared(a + b)
            && Answered(a + [CHECKPOINT_ROW] + b) == Answered(a + b)
  {
    var c := [CHECKPOINT_ROW] + b;
    assert a + [CHECKPOINT_ROW] + b == a + c && c[1..] == b;
    LegalSplit(a, c, {}, {});
    LegalSplit(a, b, {}, {});
    DeclaredSplit(a, c);
    DeclaredSplit(a, b);
    AnsweredSplit(a, c);
    AnsweredSplit(a, b);
    AnsweredCons(CHECKPOINT_ROW, b);
  }

  lemma {:induction false} WrittenIsLegal(rows: seq<TurnRow>, i: nat, boundary: Option<nat>, declared: set<string>,
                                          fulfilled: set<string>)
    ensures Legal(Written(rows, i, boundary, declared, fulfilled), declared, fulfilled)
  {
    var rest := if rows == [] then []
      else Written(rows, i, boundary, declared, fulfilled)[if boundary == Some(i) then 1 else 0..];
    if rows != [] {
      var m := rows[0].m;
      var keep := Storable(m, declared, fulfilled);
      var d := if keep then DeclaredAfter(m, declared) else declared;
      var f := if keep then AnsweredAfter(m, fulfilled) else fulfilled;
      var tail := Written(rows[1..], i + 1, boundary, d, f);
      WrittenIsLegal(rows[1..], i + 1, boundary, d, f);
      StoredKeepsPairing(m, declared, fulfilled);
      assert rest == if keep then [Stored(m)] + tail else tail;
      assert keep ==> rest[1..] == tail;
    }
    assert Written(rows, i, boundary, declared, fulfilled)
      == (if boundary == Some(i) then [CHECKPOINT_ROW] else []) + rest;
    assert ([CHECKPOINT_ROW] + rest)[1..] == rest;
  }

  /** Saving a turn keeps the session paired, whatever rows come in. */
  lemma SavingKeepsPairing(saved: seq<Message>, rows: seq<TurnRow>, skip: nat, boundary: Option<nat>, early: bool)
    requires (early ==> saved != []) && Legal(saved, {}, {})
    ensures Legal(Persisted(saved, rows, skip, boundary, early), {}, {})
  {
    var d, f := Declared(saved), Answered(saved);
    var front := boundary.Some? && boundary.value == skip - 1;
    var base := Opened(saved, skip, boundary, early);
    if front {
      var at := EarlyPoint(saved, early);
      assert saved == saved[..at] + saved[at..];
      CheckpointIsNeutral(saved[..at], saved[at..]);
    }
    var written := Written(NewRows(rows, skip), skip, boundary, d, f);
    WrittenIsLegal(NewRows(rows, skip), skip, boundary, d, f);
    LegalSplit(base, written, {}, {});
    assert {} + d == d && {} + f == f;
    CheckpointIsNeutral(base + written, []);
    assert base + written + [] == base + written;
    assert base + written + [CHECKPOINT_ROW] + [] == base + written + [CHECKPOINT_ROW];
  }

  /** One saved turn: the transcript, the index of the first new row, the checkpoint, and whether the
      input row was stored before the turn. */
  datatype Turn = Turn(rows: seq<TurnRow>, skip: nat, boundary: Option<nat>, early: bool)

  function AfterTurns(saved: seq<Message>, turns: seq<Turn>): seq<Message>
    decreases |turns|
  {
    if turns == [] then saved
    else
      var t := turns[0];
      AfterTurns(Persisted(saved, t.rows, t.skip, t.boundary, t.early && saved != []), turns[1..])
  }

  /** Over any sequence of saved turns, every stored tool row has an earlier declaring assistant row and
      no call id is answered twice. */
  lemma {:induction false} SessionStaysPaired(saved: seq<Message>, turns: seq<Turn>)
    requires Legal(saved, {}, {})
    ensures Legal(AfterTurns(saved, turns), {}, {}) && PairedSoFar(AfterTurns(saved, turns))
    decreases |turns|
  {
    if turns == [] {
      LegalIsPaired(saved);
    } else {
      var t := turns[0];
      var early := t.early && saved != [];
      SavingKeepsPairing(saved, t.rows, t.skip, t.boundary, early);
      SessionStaysPaired(Persisted(saved, t.rows, t.skip, t.boundary, early), turns[1..]);
    }
  }

  // ----- the session object

  class Session {
    var messages: seq<Message>
    var lastArchived: nat
    var lastSummary: Option<string>

    constructor ()
      ensures messages == [] && lastArchived == 0 && lastSummary == None
    {
      messages, lastArchived, lastSummary := [], 0, None;
    }

    /** Put the hidden boundary row at `insertAt`; replay starts there. */
    method CommitSummaryCheckpoint(summary: string, insertAt: nat)
      requires insertAt <= |messages|
      modifies this
      ensures messages == WithCheckpoint(old(messages), insertAt)
      ensures lastArchived == insertAt && lastSummary == Some(summary)
    {
      messages := messages[..insertAt] + [CHECKPOINT_ROW] + messages[insertAt..];
      lastSummary := Some(summary);
      lastArchived := insertAt;
    }
  }

  /** One row of the loop: store it when it may be stored. */
  method SaveRow(session: Session, row: TurnRow, declared: set<string>, fulfilled: set<string>)
    returns (declared': set<string>, fulfilled': set<string>, followups: set<string>)
    modifies session`messages
    ensures var keep := Storable(row.m, declared, fulfilled);
            && session.messages == old(session.messages) + (if keep then [Stored(row.m)] else [])
            && declared' == (if keep then DeclaredAfter(row.m, declared) else declared)
            && fulfilled' == (if keep then AnsweredAfter(row.m, fulfilled) else fulfilled)
            && followups == (if keep && row.m.role == User then row.followups - {""} else {})
  {
    declared', fulfilled', followups := declared, fulfilled, {};
    var entry := Stored(row.m);
    if row.m.role == Assistant && !Truthy(row.m.content) && row.m.calls == [] {
      return;
    }
    if row.m.role == Tool {
      if row.m.toolId == "" || row.m.toolId !in declared || row.m.toolId in fulfilled {
        return;
      }
      fulfilled' := fulfilled + {row.m.toolId};
    } else if row.m.role == User && row.m.content == Blocks([]) {
      return;
    }
    session.messages := session.messages + [entry];
    if row.m.role == User {
      followups := row.followups - {""};
    }
    if row.m.role == Assistant {
      declared' := declared + CallIds(entry.calls);
    }
  }

  lemma WrittenCons(row: TurnRow, rest: seq<TurnRow>, i: nat, boundary: Option<nat>, declared: set<string>,
                    fulfilled: set<string>)
    ensures var keep := Storable(row.m, declared, fulfilled);
            Written([row] + rest, i, boundary, declared, fulfilled)
            == (if boundary == Some(i) then [CHECKPOINT_ROW] else [])
               + ((if keep then [Stored(row.m)] else [])
                  + Written(rest, i + 1, boundary, if keep then DeclaredAfter(row.m, declared) else declared,
                            if keep then AnsweredAfter(row.m, fulfilled) else fulfilled))
  {
    assert ([row] + rest)[1..] == rest;
    assert [] + Written(rest, i + 1, boundary, declared, fulfilled)
      == Written(rest, i + 1, boundary, declared, fulfilled);
  }

  lemma SavedCons(row: TurnRow, rest: seq<TurnRow>, declared: set<string>, fulfilled: set<string>)
    ensures var keep := Storable(row.m, declared, fulfilled);
            SavedRows([row] + rest, declared, fulfilled)
            == (if keep then [Stored(row.m)] else [])
               + SavedRows(rest, if keep then DeclaredAfter(row.m, declared) else declared,
                           if keep then AnsweredAfter(row.m, fulfilled) else fulfilled)
  {
    assert ([row] + rest)[1..] == rest;
  }

  lemma Chain(a: seq<Message>, b: seq<Message>, c: seq<Message>, d: seq<Message>)
    ensures a + (b + (c + d)) == (a + b + c) + d
  {
  }

  /** Where the replay boundary stands afterwards: at the committed checkpoint row. */
  function CheckpointIndex(saved: seq<Message>, rows: seq<TurnRow>, skip: nat, boundary: nat, early: bool): nat
    requires (early ==> saved != []) && skip - 1 <= boundary <= |rows|
  {
    if boundary < skip then (if boundary == |rows| && skip > |rows| then |saved| + 1 else EarlyPoint(saved, early))
    else |saved| + |SavedRows(rows[skip..boundary], Declared(saved), Answered(saved))|
  }

  /** The replay boundary is the index of a checkpoint row of the saved session. */
  lemma ReplayStartsAtTheCheckpoint(saved: seq<Message>, rows: seq<TurnRow>, skip: nat, boundary: nat, early: bool)
    requires (early ==> saved != []) && skip <= |rows| && skip - 1 <= boundary <= |rows|
    ensures var at := CheckpointIndex(saved, rows, skip, boundary, early);
            var all := Persisted(saved, rows, skip, Some(boundary), early);
            at < |all| && all[at] == CHECKPOINT_ROW
  {
    OneCheckpointAtTheBoundary(saved, rows, skip, boundary, early);
  }

  /** Whether a checkpoint is committed while the rows are stored, or behind the last of them. */
  predicate Within(rows: seq<TurnRow>, i: nat, boundary: Option<nat>) {
    boundary.Some? && i <= boundary.value <= i + |rows|
  }

  /** The number of session rows in front of that checkpoint. */
  function Mark(messages: seq<Message>, rows: seq<TurnRow>, i: nat, boundary: Option<nat>,
                declared: set<string>, fulfilled: set<string>): nat
    requires Within(rows, i, boundary)
  {
    |messages| + |SavedRows(rows[..boundary.value - i], declared, fulfilled)|
  }

  /** The values that the loop updates. */
  datatype Progress = Progress(messages: seq<Message>, declared: set<string>, fulfilled: set<string>,
                               acknowledged: set<string>)

  /** One iteration: the checkpoint is committed against the raw index, before the row is filtered. */
  function Advance(p: Progress, row: TurnRow, i: nat, boundary: Option<nat>): Progress {
    var at := p.messages + if boundary == Some(i) then [CHECKPOINT_ROW] else [];
    if Storable(row.m, p.declared, p.fulfilled)
    then Progress(at + [Stored(row.m)], DeclaredAfter(row.m, p.declared), AnsweredAfter(row.m, p.fulfilled),
                  p.acknowledged + if row.m.role == User then row.followups - {""} else {})
    else p.(messages := at)
  }

  /** What the loop keeps before row `i`: the session rows followed by what is still to be written are
      the rows that the whole loop writes, and the checkpoint still to come will stand where it should. */
  ghost predicate Saving(target: seq<Message>, mark: nat, acked: set<string>, rest: seq<TurnRow>, i: nat,
                         boundary: Option<nat>, p: Progress) {
    && p.messages + Written(rest, i, boundary, p.declared, p.fulfilled) == target
    && p.acknowledged + SavedFollowups(rest, p.declared, p.fulfilled) == acked
    && (Within(rest, i, boundary) ==> Mark(p.messages, rest, i, boundary, p.declared, p.fulfilled) == mark)
  }

  lemma SavingStart(messages: seq<Message>, rows: seq<TurnRow>, i: nat, boundary: Option<nat>, d: set<string>,
                    f: set<string>)
    ensures Saving(messages + Written(rows, i, boundary, d, f),
                   if Within(rows, i, boundary) then Mark(messages, rows, i, boundary, d, f) else 0,
                   SavedFollowups(rows, d, f), rows, i, boundary, Progress(messages, d, f, {}))
  {
  }

  lemma SavingStep(target: seq<Message>, mark: nat, acked: set<string>, row: TurnRow, rest: seq<TurnRow>, i: nat,
                   boundary: Option<nat>, p: Progress)
    requires Saving(target, mark, acked, [row] + rest, i, boundary, p)
    ensures Saving(target, mark, acked, rest, i + 1, boundary, Advance(p, row, i, boundary))
    ensures boundary == Some(i) ==> |p.messages| == mark
  {
    WrittenStep(row, rest, i, boundary, p);
    FollowupStep(row, rest, i, boundary, p);
    if Within(rest, i + 1, boundary) {
      MarkStep(row, rest, i, boundary, p);
    }
  }

  lemma WrittenStep(row: TurnRow, rest: seq<TurnRow>, i: nat, boundary: Option<nat>, p: Progress)
    ensures var q := Advance(p, row, i, boundary);
            p.messages + Written([row] + rest, i, boundary, p.declared, p.fulfilled)
            == q.messages + Written(rest, i + 1, boundary, q.declared, q.fulfilled)
  {
    var q := Advance(p, row, i, boundary);
    var mark := if boundary == Some(i) then [CHECKPOINT_ROW] else [];
    var piece := if Storable(row.m, p.declared, p.fulfilled) then [Stored(row.m)] else [];
    WrittenCons(row, rest, i, boundary, p.declared, p.fulfilled);
    Nothing(p.messages + mark);
    assert q.messages == p.messages + mark + piece;
    Chain(p.messages, mark, piece, Written(rest, i + 1, boundary, q.declared, q.fulfilled));
  }

  lemma Nothing(a: seq<Message>)
    ensures a + [] == a
  {
  }

  lemma FollowupStep(row: TurnRow, rest: seq<TurnRow>, i: nat, boundary: Option<nat>, p: Progress)
    ensures var q := Advance(p, row, i, boundary);
            p.acknowledged + SavedFollowups([row] + rest, p.declared, p.fulfilled)
            == q.acknowledged + SavedFollowups(rest, q.declared, q.fulfilled)
  {
    assert ([row] + rest)[1..] == rest;
  }

  lemma MarkStep(row: TurnRow, rest: seq<TurnRow>, i: nat, boundary: Option<nat>, p: Progress)
    requires Within(rest, i + 1, boundary)
    ensures var q := Advance(p, row, i, boundary);
            Mark(q.messages, rest, i + 1, boundary, q.declared, q.fulfilled)
            == Mark(p.messages, [row] + rest, i, boundary, p.declared, p.fulfilled)
  {
    var n := boundary.value - i;
    assert ([row] + rest)[..n] == [row] + rest[..n - 1];
    SavedCons(row, rest[..n - 1], p.declared, p.fulfilled);
  }

  lemma SavingEnd(target: seq<Message>, mark: nat, acked: set<string>, i: nat, boundary: Option<nat>, p: Progress)
    requires Saving(target, mark, acked, [], i, boundary, p)
    ensures p.acknowledged == acked
    ensures boundary == Some(i) ==> target == p.messages + [CHECKPOINT_ROW] && |p.messages| == mark
    ensures boundary != Some(i) ==> target == p.messages
  {
  }

  method SaveAt(session: Session, row: TurnRow, i: nat, boundary: Option<nat>, summary: string,
                declared: set<string>, fulfilled: set<string>, acknowledged: set<string>)
    returns (declared': set<string>, fulfilled': set<string>, acknowledged': set<string>)
    modifies session
    ensures Progress(session.messages, declared', fulfilled', acknowledged')
         == Advance(Progress(old(session.messages), declared, fulfilled, acknowledged), row, i, boundary)
    ensures if boundary == Some(i)
            then session.lastArchived == |old(session.messages)| && session.lastSummary == Some(summary)
            else session.lastArchived == old(session.lastArchived) && session.lastSummary == old(session.lastSummary)
  {
    if boundary == Some(i) {
      session.CommitSummaryCheckpoint(summary, |session.messages|);
    }
    var followups;
    declared', fulfilled', followups := SaveRow(session, row, declared, fulfilled);
    acknowledged' := acknowledged + followups;
  }

  /** The loop over the new rows and the commit behind the last of them. */
  method SaveRows(session: Session, rows: seq<TurnRow>, start: nat, boundary: Option<nat>, summary: string,
                  d: set<string>, f: set<string>)
    returns (acknowledged: set<string>)
    modifies session
    ensures session.messages == old(session.messages) + Written(rows, start, boundary, d, f)
    ensures acknowledged == SavedFollowups(rows, d, f)
    ensures if Within(rows, start, boundary) then
              session.lastArchived == Mark(old(session.messages), rows, start, boundary, d, f)
              && session.lastSummary == Some(summary)
            else session.lastArchived == old(session.lastArchived) && session.lastSummary == old(session.lastSummary)
  {
    var declared, fulfilled, rest, i := d, f, rows, start;
    acknowledged := {};
    ghost var target := session.messages + Written(rows, start, boundary, d, f);
    ghost var acked := SavedFollowups(rows, d, f);
    ghost var mark := if Within(rows, start, boundary) then Mark(session.messages, rows, start, boundary, d, f) else 0;
    SavingStart(session.messages, rows, start, boundary, d, f);
    while rest != []
      invariant i + |rest| == start + |rows|
      invariant Saving(target, mark, acked, rest, i, boundary,
                       Progress(session.messages, declared, fulfilled, acknowledged))
      invariant if boundary.Some? && start <= boundary.value < i then
                  session.lastArchived == mark && session.lastSummary == Some(summary)
                else session.lastArchived == old(session.lastArchived)
                     && session.lastSummary == old(session.lastSummary)
      decreases |rest|
    {
      ghost var p := Progress(session.messages, declared, fulfilled, acknowledged);
      assert rest == [rest[0]] + rest[1..];
      SavingStep(target, mark, acked, rest[0], rest[1..], i, boundary, p);
      declared, fulfilled, acknowledged := SaveAt(session, rest[0], i, boundary, summary, declared, fulfilled,
                                                  acknowledged);
      rest, i := rest[1..], i + 1;
    }
    SavingEnd(target, mark, acked, i, boundary, Progress(session.messages, declared, fulfilled, acknowledged));
    if boundary == Some(i) {
      session.CommitSummaryCheckpoint(summary, |session.messages|);
    }
  }

  method SaveTurn(session: Session, rows: seq<TurnRow>, skip: nat, checkpoint: Option<Checkpoint>, early: bool)
    returns (acknowledged: set<string>)
    requires early ==> session.messages != []
    modifies session
    ensures var valid := checkpoint.Some? && skip - 1 <= checkpoint.value.boundary <= |rows|;
            session.messages == Persisted(old(session.messages), rows, skip,
                                          if valid then Some(checkpoint.value.boundary) else None, early)
    ensures acknowledged
         == SavedFollowups(NewRows(rows, skip), Declared(old(session.messages)), Answered(old(session.messages)))
    ensures if checkpoint.Some? && skip - 1 <= checkpoint.value.boundary <= |rows| then
              && session.lastSummary == Some(checkpoint.value.summary)
              && session.lastArchived
                 == CheckpointIndex(old(session.messages), rows, skip, checkpoint.value.boundary, early)
            else session.lastArchived == old(session.lastArchived) && session.lastSummary == old(session.lastSummary)
  {
    var declared, fulfilled := Declared(session.messages), Answered(session.messages);
    acknowledged := {};
    var boundary := ValidBoundary(checkpoint, skip, |rows|);
    var summary := if boundary.Some? then checkpoint.value.summary else "";
    CommitEarly(session, skip, boundary, summary, early);
    acknowledged := SaveRows(session, NewRows(rows, skip), skip, boundary, summary, declared, fulfilled);
    if skip > |rows| && boundary == Some(|rows|) {
      session.CommitSummaryCheckpoint(summary, |session.messages|);
    }
    if boundary.Some? && skip <= boundary.value {
      MarkedIndex(old(session.messages), rows, skip, boundary.value, early);
    }
  }

  lemma MarkedIndex(saved: seq<Message>, rows: seq<TurnRow>, skip: nat, boundary: nat, early: bool)
    requires (early ==> saved != []) && skip <= boundary <= |rows|
    ensures Within(NewRows(rows, skip), skip, Some(boundary))
    ensures CheckpointIndex(saved, rows, skip, boundary, early)
         == Mark(saved, NewRows(rows, skip), skip, Some(boundary), Declared(saved), Answered(saved))
  {
    assert rows[skip..][..boundary - skip] == rows[skip..boundary];
  }

  /** The input row may already be the last row of the session while it comes behind the checkpoint. */
  method CommitEarly(session: Session, skip: nat, boundary: Option<nat>, summary: string, early: bool)
    requires early ==> session.messages != []
    modifies session
    ensures session.messages == Opened(old(session.messages), skip, boundary, early)
    ensures if boundary.Some? && boundary.value == skip - 1 then
              session.lastArchived == EarlyPoint(old(session.messages), early) && session.lastSummary == Some(summary)
            else session.lastArchived == old(session.lastArchived) && session.lastSummary == old(session.lastSummary)
  {
    if boundary.Some? && boundary.value == skip - 1 {
      var insertAt := |session.messages| - (if early then 1 else 0);
      session.CommitSummaryCheckpoint(summary, insertAt);
    }
  }
}
