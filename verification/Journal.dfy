/** The memory journal: cursor allocation from a counter file that may be lost or one write behind, compaction
    that keeps what the Dream job has not read, and batched consumption. */
module Journal {
  import opened Transcript

  /** A parsed journal line. `cursor` is the integer stored in it, if there is one; `wellFormed` says that its
      other fields have the right types. */
  datatype Entry = Entry(cursor: Option<int>, wellFormed: bool, text: string)

  const BATCH: nat := 20

  /** The cursor of an entry, or -1 if it has no valid one. */
  function CursorOf(e: Entry): (c: int)
    ensures c >= -1
  {
    if e.cursor.Some? && e.cursor.value >= 0 then e.cursor.value else -1
  }

  function AtLeast(a: nat, b: nat): nat {
    if a < b then b else a
  }

  /** The greatest cursor of a valid entry, or 0. */
  function MaxCursor(entries: seq<Entry>): nat {
    if entries == [] then 0
    else
      var (rest, e) := (entries[..|entries| - 1], entries[|entries| - 1]);
      if e.wellFormed && CursorOf(e) > MaxCursor(rest) then CursorOf(e) else MaxCursor(rest)
  }

  /** The cursor of the last line, or -1 if that line cannot be read on its own or has none. */
  function TailCursor(entries: seq<Entry>, tailReadable: bool): (c: int)
    ensures c >= -1
  {
    if entries == [] || !tailReadable then -1 else CursorOf(entries[|entries| - 1])
  }

  function NextCursor(entries: seq<Entry>, tailReadable: bool, counter: Option<nat>): nat {
    var tail := TailCursor(entries, tailReadable);
    var seen: nat := if tail >= 0 then tail else MaxCursor(entries);
    (if counter.Some? then AtLeast(counter.value, seen) else seen) + 1
  }

  predicate Pending(e: Entry, since: nat) {
    CursorOf(e) > since
  }

  /** The entries that the Dream job has not read. */
  function Unprocessed(entries: seq<Entry>, since: nat): seq<Entry> {
    if entries == [] then []
    else
      var (rest, e) := (entries[..|entries| - 1], entries[|entries| - 1]);
      Unprocessed(rest, since) + if Pending(e, since) && e.wellFormed then [e] else []
  }

  function FirstPending(entries: seq<Entry>, since: nat): (i: nat)
    ensures i <= |entries|
  {
    if entries == [] || Pending(entries[0], since) then 0 else 1 + FirstPending(entries[1..], since)
  }

  function Least(a: nat, b: nat): nat {
    if a < b then a else b
  }

  /** Drop the oldest entries beyond the limit, but none from the first unprocessed one on. */
  function Compacted(entries: seq<Entry>, limit: int, dream: nat): seq<Entry> {
    if limit <= 0 || |entries| <= limit then entries
    else entries[Least(|entries| - limit, FirstPending(entries, dream))..]
  }

  function Batch(entries: seq<Entry>, dream: nat): seq<Entry> {
    var pending := Unprocessed(entries, dream);
    pending[..Least(BATCH, |pending|)]
  }

  // ----- compaction, for any journal

  lemma {:induction false} NothingPendingBefore(entries: seq<Entry>, since: nat, k: nat)
    requires k <= FirstPending(entries, since)
    ensures Unprocessed(entries[..k], since) == []
  {
    if k > 0 {
      NothingPendingBefore(entries, since, k - 1);
      BeforeFirst(entries, since, k - 1);
      assert entries[..k][..k - 1] == entries[..k - 1];
    }
  }

  lemma {:induction false} BeforeFirst(entries: seq<Entry>, since: nat, i: nat)
    requires i < FirstPending(entries, since)
    ensures !Pending(entries[i], since)
  {
    if i > 0 {
      BeforeFirst(entries[1..], since, i - 1);
    }
  }

  lemma {:induction false} UnprocessedSplit(a: seq<Entry>, b: seq<Entry>, since: nat)
    ensures Unprocessed(a + b, since) == Unprocessed(a, since) + Unprocessed(b, since)
  {
    if b == [] {
      assert a + b == a && Unprocessed(a, since) + [] == Unprocessed(a, since);
    } else {
      var rest := b[..|b| - 1];
      assert (a + b)[..|a + b| - 1] == a + rest;
      UnprocessedSplit(a, rest, since);
      var e := b[|b| - 1];
      var piece := if Pending(e, since) && e.wellFormed then [e] else [];
      assert Unprocessed(a, since) + (Unprocessed(rest, since) + piece)
          == (Unprocessed(a, since) + Unprocessed(rest, since)) + piece;
    }
  }

  /** How many of the oldest entries compaction drops. */
  function DropCount(entries: seq<Entry>, limit: int, dream: nat): (k: nat)
    ensures k <= FirstPending(entries, dream)
    ensures limit > 0 && |entries| >= limit ==> k <= |entries| - limit
    ensures limit > 0 && |entries| - k > limit ==> k == FirstPending(entries, dream)
  {
    if limit <= 0 || |entries| <= limit then 0 else Least(|entries| - limit, FirstPending(entries, dream))
  }

  lemma CompactedIsDropped(entries: seq<Entry>, limit: int, dream: nat)
    ensures Compacted(entries, limit, dream) == entries[DropCount(entries, limit, dream)..]
  {
    assert entries[0..] == entries;
  }

  lemma {:induction false} DropKeepsUnprocessed(entries: seq<Entry>, dream: nat, k: nat)
    requires k <= FirstPending(entries, dream)
    ensures Unprocessed(entries[k..], dream) == Unprocessed(entries, dream)
  {
    NothingPendingBefore(entries, dream, k);
    UnprocessedSplit(entries[..k], entries[k..], dream);
    assert entries == entries[..k] + entries[k..];
    assert [] + Unprocessed(entries[k..], dream) == Unprocessed(entries[k..], dream);
  }

  /** Compaction keeps a suffix of any journal with every unprocessed entry, and more than the limit only if
      all of what it keeps stands from the first unprocessed entry on. */
  lemma CompactionKeepsUnprocessed(entries: seq<Entry>, limit: int, dream: nat)
    ensures var kept := Compacted(entries, limit, dream);
            && |kept| <= |entries| && kept == entries[|entries| - |kept|..]
            && Unprocessed(kept, dream) == Unprocessed(entries, dream)
            && (limit > 0 && |kept| > limit ==> |kept| == |entries| - FirstPending(entries, dream))
            && (limit > 0 && |entries| >= limit ==> |kept| >= limit)
  {
    CompactedIsDropped(entries, limit, dream);
    DropKeepsUnprocessed(entries, dream, DropCount(entries, limit, dream));
  }

  /** The entry has a cursor behind the Dream cursor. */
  predicate Unread(e: Entry, dream: nat) {
    e.cursor.Some? && e.cursor.value > dream
  }

  lemma {:induction false} FirstPendingIs(entries: seq<Entry>, dream: nat)
    ensures var k := FirstPending(entries, dream);
            (forall i | 0 <= i < k :: !Unread(entries[i], dream)) && (k < |entries| ==> Unread(entries[k], dream))
  {
    if entries != [] && !Pending(entries[0], dream) {
      FirstPendingIs(entries[1..], dream);
      assert forall i | 1 <= i < |entries| :: entries[i] == entries[1..][i - 1];
    }
  }

  /** How many entries of any journal compaction drops: all beyond the limit, or those in front of the first unread one
      if it comes earlier. */
  lemma CompactionIsExact(entries: seq<Entry>, limit: int, dream: nat) returns (k: nat)
    ensures k <= |entries| && Compacted(entries, limit, dream) == entries[k..]
    ensures limit <= 0 || |entries| <= limit ==> k == 0
    ensures limit > 0 && |entries| > limit ==>
              && k <= |entries| - limit && (forall i | 0 <= i < k :: !Unread(entries[i], dream))
              && (k < |entries| - limit ==> Unread(entries[k], dream))
  {
    k := DropCount(entries, limit, dream);
    CompactedIsDropped(entries, limit, dream);
    FirstPendingIs(entries, dream);
  }

  // ----- cursor allocation, for any journal

  lemma {:induction false} MaxBounds(entries: seq<Entry>, i: nat)
    requires i < |entries| && entries[i].wellFormed
    ensures CursorOf(entries[i]) <= MaxCursor(entries)
  {
    if i < |entries| - 1 {
      MaxBounds(entries[..|entries| - 1], i);
    }
  }

  lemma {:induction false} MaxIsReached(entries: seq<Entry>) returns (i: nat)
    requires MaxCursor(entries) > 0
    ensures i < |entries| && entries[i].wellFormed && CursorOf(entries[i]) == MaxCursor(entries)
  {
    var (rest, e) := (entries[..|entries| - 1], entries[|entries| - 1]);
    if e.wellFormed && CursorOf(e) >= MaxCursor(rest) {
      i := |entries| - 1;
    } else {
      i := MaxIsReached(rest);
    }
  }

  predicate Exceeds(cursor: nat, entries: seq<Entry>) {
    forall i :: 0 <= i < |entries| && entries[i].wellFormed ==> CursorOf(entries[i]) < cursor
  }

  /** The new cursor exceeds every cursor of any journal exactly when the journal is scanned, or its last
      line or the counter is not behind the others. */
  lemma FreshUnlessTheTailIsBehind(entries: seq<Entry>, tailReadable: bool, counter: Option<nat>)
    ensures var tail := TailCursor(entries, tailReadable);
            Exceeds(NextCursor(entries, tailReadable, counter), entries)
            <==> (tail < 0 || MaxCursor(entries) <= tail || (counter.Some? && MaxCursor(entries) <= counter.value))
  {
    var next := NextCursor(entries, tailReadable, counter);
    if MaxCursor(entries) < next {
      forall i | 0 <= i < |entries| && entries[i].wellFormed ensures CursorOf(entries[i]) < next
      {
        MaxBounds(entries, i);
      }
    } else {
      var i := MaxIsReached(entries);
    }
  }

  /** A line written by somebody else behind a higher cursor makes the store issue that cursor again. */
  lemma ForeignTailRepeats()
    ensures var entries := [Entry(Some(2), true, "a"), Entry(Some(1), true, "b")];
            && NextCursor(entries, true, None) == 2 && !Exceeds(2, entries)
            && Exceeds(NextCursor(entries, false, None), entries)
  {
    var entries := [Entry(Some(2), true, "a"), Entry(Some(1), true, "b")];
    FreshUnlessTheTailIsBehind(entries, true, None);
    FreshUnlessTheTailIsBehind(entries, false, None);
    assert entries[..1] == [entries[0]] && entries[..1][..0] == [];
    assert CursorOf(entries[0]) == 2;
    assert MaxCursor(entries[..1]) == 2;
  }

  // ----- runs of the store

  /** The files, the batch that a Dream run is reading, and two histories: every entry ever appended and the
      entries of the completed batches. */
  datatype Store = Store(entries: seq<Entry>, counter: Option<nat>, dream: nat, limit: int,
                         inFlight: Option<seq<Entry>>, appended: seq<Entry>, consumed: seq<Entry>)

  function Empty(limit: int): Store {
    Store([], None, 0, limit, None, [], [])
  }

  /** `counted`: the counter file was written after the journal line. One Dream run at a time. */
  datatype Event =
    | Append(text: string, tailReadable: bool, counted: bool)
    | CounterLost
    | Compact
    | DreamStarts
    | DreamCompletes
    | DreamFails

  function Appended(s: Store, text: string, tailReadable: bool, counted: bool): Store {
    var cursor := NextCursor(s.entries, tailReadable, s.counter);
    var e := Entry(Some(cursor), true, text);
    s.(entries := s.entries + [e], appended := s.appended + [e], counter := if counted then Some(cursor) else s.counter)
  }

  function LastCursor(batch: seq<Entry>): nat
    requires batch != []
  {
    var c := CursorOf(batch[|batch| - 1]);
    if c >= 0 then c else 0
  }

  function Step(s: Store, e: Event): Store {
    match e
    case Append(text, tailReadable, counted) => Appended(s, text, tailReadable, counted)
    case CounterLost => s.(counter := None)
    case Compact => s.(entries := Compacted(s.entries, s.limit, s.dream))
    case DreamStarts =>
      var batch := Batch(s.entries, s.dream);
      if s.inFlight.Some? || batch == [] then s else s.(inFlight := Some(batch))
    case DreamCompletes =>
      if s.inFlight.None? || s.inFlight.value == [] then s
      else s.(dream := LastCursor(s.inFlight.value), consumed := s.consumed + s.inFlight.value, inFlight := None)
    case DreamFails => s.(inFlight := None)
  }

  /** A Dream run with nothing in between. */
  function DreamRun(s: Store, completed: bool): Store {
    Step(Step(Step(s, DreamStarts), if completed then DreamCompletes else DreamFails), Compact)
  }

  lemma DreamRunIs(s: Store, completed: bool)
    requires s.inFlight.None?
    ensures var batch := Batch(s.entries, s.dream);
            DreamRun(s, completed)
            == Step(if batch == [] || !completed then s
                    else s.(dream := LastCursor(batch), consumed := s.consumed + batch), Compact)
  {
  }

  function After(s: Store, run: seq<Event>): Store {
    if run == [] then s else Step(After(s, run[..|run| - 1]), run[|run| - 1])
  }

  /** The cursors of a part of the journal in front of which `base` entries were appended. */
  predicate Numbered(entries: seq<Entry>, base: nat) {
    entries == [] ||
    var e := entries[|entries| - 1];
    Numbered(entries[..|entries| - 1], base) && e.cursor == Some(base + |entries|) && e.wellFormed
  }

  lemma {:induction false} NumberedAt(entries: seq<Entry>, base: nat, i: nat)
    requires Numbered(entries, base) && i < |entries|
    ensures entries[i].cursor == Some(base + i + 1) && entries[i].wellFormed
  {
    if i < |entries| - 1 {
      NumberedAt(entries[..|entries| - 1], base, i);
    }
  }

  /** The appended entries are numbered from 1; those read by completed batches come first, then the
      unprocessed ones; the file holds the last entries; a batch in flight is the front of what is unprocessed. */
  predicate Inv(s: Store) {
    && Numbered(s.appended, 0)
    && s.appended == s.consumed + Unprocessed(s.entries, s.dream) && |s.consumed| == s.dream
    && |s.entries| <= |s.appended| && Numbered(s.entries, |s.appended| - |s.entries|)
    && (s.appended != [] ==> s.entries != [])
    && (s.counter.Some? ==> s.counter.value <= |s.appended|)
    && (s.inFlight.Some? ==> s.inFlight.value != [] && s.inFlight.value <= Unprocessed(s.entries, s.dream))
  }

  lemma {:induction false} NumberedMax(entries: seq<Entry>, base: nat)
    requires Numbered(entries, base)
    ensures MaxCursor(entries) == if entries == [] then 0 else base + |entries|
  {
    if entries != [] {
      NumberedMax(entries[..|entries| - 1], base);
    }
  }

  /** The next cursor follows the last one issued, whatever the counter file and the last line look like. */
  lemma NextIsFresh(s: Store, tailReadable: bool)
    requires Inv(s)
    ensures NextCursor(s.entries, tailReadable, s.counter) == |s.appended| + 1
  {
    NumberedMax(s.entries, |s.appended| - |s.entries|);
  }

  lemma AppendKeepsInv(s: Store, text: string, tailReadable: bool, counted: bool)
    requires Inv(s)
    ensures Inv(Appended(s, text, tailReadable, counted))
  {
    NextIsFresh(s, tailReadable);
    var e := Entry(Some(|s.appended| + 1), true, text);
    NumberedSnoc(s.appended, 0, e);
    NumberedSnoc(s.entries, |s.appended| - |s.entries|, e);
    UnprocessedSnoc(s.entries, e, s.dream);
    Assoc(s.consumed, Unprocessed(s.entries, s.dream), [e]);
  }

  lemma UnprocessedSnoc(entries: seq<Entry>, e: Entry, since: nat)
    ensures Unprocessed(entries + [e], since)
         == Unprocessed(entries, since) + if Pending(e, since) && e.wellFormed then [e] else []
  {
    assert (entries + [e])[..|entries|] == entries;
  }

  lemma NumberedSnoc(entries: seq<Entry>, base: nat, e: Entry)
    requires Numbered(entries, base) && e.cursor == Some(base + |entries| + 1) && e.wellFormed
    ensures Numbered(entries + [e], base)
  {
    assert (entries + [e])[..|entries|] == entries;
  }

  lemma NumberedSuffix(entries: seq<Entry>, base: nat, k: nat)
    requires Numbered(entries, base) && k <= |entries|
    ensures Numbered(entries[k..], base + k)
  {
    assert entries == entries[..k] + entries[k..];
    NumberedParts(entries[..k], entries[k..], base);
  }

  lemma Assoc(a: seq<Entry>, b: seq<Entry>, c: seq<Entry>)
    ensures a + (b + c) == (a + b) + c
  {
  }

  lemma CompactKeepsInv(s: Store)
    requires Inv(s)
    ensures Inv(Step(s, Compact))
  {
    CompactionKeepsUnprocessed(s.entries, s.limit, s.dream);
    var kept := Compacted(s.entries, s.limit, s.dream);
    NumberedSuffix(s.entries, |s.appended| - |s.entries|, |s.entries| - |kept|);
  }

  lemma {:induction false} ReadUpTo(entries: seq<Entry>, base: nat, since: nat)
    requires Numbered(entries, base) && base + |entries| <= since
    ensures Unprocessed(entries, since) == []
  {
    if entries != [] {
      ReadUpTo(entries[..|entries| - 1], base, since);
    }
  }

  lemma {:induction false} NothingRead(entries: seq<Entry>, base: nat, since: nat)
    requires Numbered(entries, base) && since <= base
    ensures Unprocessed(entries, since) == entries
  {
    if entries != [] {
      var (rest, e) := (entries[..|entries| - 1], entries[|entries| - 1]);
      NothingRead(rest, base, since);
      assert Pending(e, since);
      assert entries == rest + [e];
    }
  }

  /** Reading on from a later cursor reads what is left of what an earlier one would read. */
  lemma {:induction false} ReadingOn(entries: seq<Entry>, since: nat, later: nat)
    requires since <= later
    ensures Unprocessed(entries, later) == Unprocessed(Unprocessed(entries, since), later)
  {
    if entries != [] {
      var (rest, e) := (entries[..|entries| - 1], entries[|entries| - 1]);
      ReadingOn(rest, since, later);
      if Pending(e, since) && e.wellFormed {
        assert (Unprocessed(rest, since) + [e])[..|Unprocessed(rest, since)|] == Unprocessed(rest, since);
      } else {
        assert Unprocessed(rest, since) + [] == Unprocessed(rest, since);
      }
    }
  }

  lemma {:induction false} NumberedParts(a: seq<Entry>, b: seq<Entry>, base: nat)
    requires Numbered(a + b, base)
    ensures Numbered(a, base) && Numbered(b, base + |a|)
    decreases |b|
  {
    if b == [] {
      assert a + b == a;
    } else {
      assert (a + b)[..|a + b| - 1] == a + b[..|b| - 1];
      NumberedParts(a, b[..|b| - 1], base);
    }
  }

  lemma LastOfNumbered(batch: seq<Entry>, dream: nat)
    requires Numbered(batch, dream) && batch != []
    ensures LastCursor(batch) == dream + |batch|
  {
    NumberedAt(batch, dream, |batch| - 1);
  }

  lemma SplitUnread(a: seq<Entry>, b: seq<Entry>, since: nat)
    requires Unprocessed(a, since) == []
    ensures Unprocessed(a + b, since) == Unprocessed(b, since)
  {
    UnprocessedSplit(a, b, since);
    assert [] + Unprocessed(b, since) == Unprocessed(b, since);
  }

  lemma BatchIsRead(batch: seq<Entry>, rest: seq<Entry>, dream: nat)
    requires Numbered(batch, dream) && Numbered(rest, dream + |batch|)
    ensures Unprocessed(batch + rest, dream + |batch|) == rest
  {
    ReadUpTo(batch, dream, dream + |batch|);
    NothingRead(rest, dream + |batch|, dream + |batch|);
    SplitUnread(batch, rest, dream + |batch|);
  }

  lemma FrontOfNumbered(consumed: seq<Entry>, batch: seq<Entry>, rest: seq<Entry>)
    requires Numbered(consumed + (batch + rest), 0) && batch != []
    ensures Numbered(batch, |consumed|) && Numbered(rest, |consumed| + |batch|)
    ensures LastCursor(batch) == |consumed| + |batch|
  {
    NumberedParts(consumed, batch + rest, 0);
    NumberedParts(batch, rest, |consumed|);
    LastOfNumbered(batch, |consumed|);
  }

  lemma ReadingPastTheBatch(entries: seq<Entry>, batch: seq<Entry>, rest: seq<Entry>, dream: nat)
    requires Numbered(batch, dream) && Numbered(rest, dream + |batch|) && Unprocessed(entries, dream) == batch + rest
    ensures Unprocessed(entries, dream + |batch|) == rest
  {
    BatchIsRead(batch, rest, dream);
    ReadingOn(entries, dream, dream + |batch|);
  }

  /** Completing a batch leaves exactly the entries behind it unprocessed. */
  lemma CompletionReadsTheBatch(entries: seq<Entry>, consumed: seq<Entry>, batch: seq<Entry>, rest: seq<Entry>)
    requires Numbered(consumed + (batch + rest), 0) && batch != [] && Unprocessed(entries, |consumed|) == batch + rest
    ensures LastCursor(batch) == |consumed| + |batch| && Unprocessed(entries, LastCursor(batch)) == rest
  {
    FrontOfNumbered(consumed, batch, rest);
    ReadingPastTheBatch(entries, batch, rest, |consumed|);
  }

  lemma DreamEndKeepsInv(s: Store)
    requires Inv(s)
    ensures Inv(Step(s, DreamCompletes))
  {
    if s.inFlight.Some? {
      var batch := s.inFlight.value;
      var rest := Unprocessed(s.entries, s.dream)[|batch|..];
      assert batch + rest == Unprocessed(s.entries, s.dream);
      CompletionReadsTheBatch(s.entries, s.consumed, batch, rest);
      Assoc(s.consumed, batch, rest);
    }
  }

  lemma DreamStartKeepsInv(s: Store)
    requires Inv(s)
    ensures Inv(Step(s, DreamStarts))
  {
  }

  lemma StepKeepsInv(s: Store, e: Event)
    requires Inv(s)
    ensures Inv(Step(s, e))
  {
    match e
    case Append(text, tailReadable, counted) => AppendKeepsInv(s, text, tailReadable, counted);
    case Compact => CompactKeepsInv(s);
    case DreamStarts => DreamStartKeepsInv(s);
    case DreamCompletes => DreamEndKeepsInv(s);
    case _ =>
  }

  lemma {:induction false} EveryRunKeepsInv(limit: int, run: seq<Event>)
    ensures Inv(After(Empty(limit), run))
  {
    if run != [] {
      EveryRunKeepsInv(limit, run[..|run| - 1]);
      StepKeepsInv(After(Empty(limit), run[..|run| - 1]), run[|run| - 1]);
    }
  }

  /** Over every run of appends, compactions and Dream runs that complete or fail: the completed batches
      followed by the unprocessed entries of the journal are the appended entries, each once and in order. */
  lemma ConsumedExactlyOnce(limit: int, run: seq<Event>)
    ensures var s := After(Empty(limit), run);
            s.consumed + Unprocessed(s.entries, s.dream) == s.appended
  {
    EveryRunKeepsInv(limit, run);
  }

  /** What a run appends are the texts of its append events. */
  function Texts(run: seq<Event>): seq<string> {
    if run == [] then []
    else var e := run[|run| - 1]; Texts(run[..|run| - 1]) + if e.Append? then [e.text] else []
  }

  lemma {:induction false} EveryAppendIsKept(limit: int, run: seq<Event>)
    ensures var s := After(Empty(limit), run);
            |s.appended| == |Texts(run)| && forall i :: 0 <= i < |s.appended| ==> s.appended[i].text == Texts(run)[i]
  {
    if run != [] {
      EveryAppendIsKept(limit, run[..|run| - 1]);
    }
  }

  /** Over every run the cursors issued are 1, 2, 3 and so on, so that the next one is greater than all of
      them, whatever the counter file and the last line look like. */
  lemma CursorsAreNeverReissued(limit: int, run: seq<Event>, tailReadable: bool)
    ensures var s := After(Empty(limit), run);
            NextCursor(s.entries, tailReadable, s.counter) == |s.appended| + 1 && Exceeds(|s.appended| + 1, s.appended)
  {
    var s := After(Empty(limit), run);
    EveryRunKeepsInv(limit, run);
    NextIsFresh(s, tailReadable);
    NumberedExceeds(s.appended);
  }

  /** Over every run the journal file is strictly increasing. */
  lemma JournalStaysIncreasing(limit: int, run: seq<Event>, i: nat, j: nat)
    requires i < j < |After(Empty(limit), run).entries|
    ensures var entries := After(Empty(limit), run).entries;
            0 < CursorOf(entries[i]) < CursorOf(entries[j])
  {
    var base := JournalIsNumbered(limit, run);
    NumberedIncreases(After(Empty(limit), run).entries, base, i, j);
  }

  lemma JournalIsNumbered(limit: int, run: seq<Event>) returns (base: nat)
    ensures Numbered(After(Empty(limit), run).entries, base)
  {
    EveryRunKeepsInv(limit, run);
    base := |After(Empty(limit), run).appended| - |After(Empty(limit), run).entries|;
  }

  lemma NumberedIncreases(entries: seq<Entry>, base: nat, i: nat, j: nat)
    requires Numbered(entries, base) && i < j < |entries|
    ensures 0 < CursorOf(entries[i]) < CursorOf(entries[j])
  {
    NumberedAt(entries, base, i);
    NumberedAt(entries, base, j);
  }

  lemma NumberedExceeds(appended: seq<Entry>)
    requires Numbered(appended, 0)
    ensures Exceeds(|appended| + 1, appended)
  {
    forall k | 0 <= k < |appended| ensures CursorOf(appended[k]) < |appended| + 1 {
      NumberedAt(appended, 0, k);
    }
  }

  /** Dream runs that complete one after the other, with nothing appended in between. */
  function DreamOn(s: Store, n: nat): Store
    decreases n
  {
    if n == 0 then s else DreamOn(Step(Step(s, DreamStarts), DreamCompletes), n - 1)
  }

  lemma OneDream(s: Store)
    requires Inv(s) && s.inFlight.None?
    ensures var t := Step(Step(s, DreamStarts), DreamCompletes);
            && Inv(t) && t.inFlight.None? && t.appended == s.appended
            && |t.consumed| == |s.consumed| + Least(BATCH, |s.appended| - |s.consumed|)
  {
    StepKeepsInv(s, DreamStarts);
    StepKeepsInv(Step(s, DreamStarts), DreamCompletes);
  }

  lemma AllRead(s: Store)
    requires Inv(s) && |s.appended| <= |s.consumed|
    ensures s.consumed == s.appended
  {
    assert Unprocessed(s.entries, s.dream) == [];
  }

  /** Enough completed Dream runs read everything: each of them reads the next twenty entries or the rest. */
  lemma {:induction false} DreamsReadEverything(s: Store, n: nat)
    requires Inv(s) && s.inFlight.None? && |s.appended| - |s.consumed| <= n * BATCH
    ensures DreamOn(s, n).consumed == s.appended
    decreases n
  {
    if n == 0 {
      AllRead(s);
    } else {
      OneDream(s);
      DreamsReadEverything(Step(Step(s, DreamStarts), DreamCompletes), n - 1);
    }
  }

  // ----- the store as an object

  class MemoryStore {
    var history: seq<Entry>
    var counter: Option<nat>
    var dreamCursor: nat
    const maxHistoryEntries: int
    ghost var appended: seq<Entry>
    ghost var consumed: seq<Entry>

    /** The store between two Dream runs. */
    ghost function View(): Store
      reads this
    {
      Store(history, counter, dreamCursor, maxHistoryEntries, None, appended, consumed)
    }

    constructor (limit: int)
      ensures View() == Empty(limit)
    {
      maxHistoryEntries := limit;
      history, counter, dreamCursor, appended, consumed := [], None, 0, [], [];
    }

    method ScanCursors() returns (highest: nat)
      ensures highest == MaxCursor(history)
    {
      highest := 0;
      for i := 0 to |history|
        invariant highest == MaxCursor(history[..i])
      {
        assert history[..i + 1][..i] == history[..i];
        if history[i].wellFormed && highest < CursorOf(history[i]) {
          highest := CursorOf(history[i]);
        }
      }
      assert history[..|history|] == history;
    }

    method AllocateCursor(tailReadable: bool) returns (next: nat)
      ensures next == NextCursor(history, tailReadable, counter)
    {
      var last := if history == [] || !tailReadable then -1 else CursorOf(history[|history| - 1]);
      if counter.Some? {
        if last >= 0 {
          next := AtLeast(counter.value, last) + 1;
          return;
        }
        var highest := ScanCursors();
        next := AtLeast(counter.value, highest) + 1;
        return;
      }
      if last >= 0 {
        next := last + 1;
        return;
      }
      var highest := ScanCursors();
      next := highest + 1;
    }

    /** The journal line is written before the counter; `counted` is false when the process stops in between. */
    method AppendRecord(text: string, tailReadable: bool, counted: bool) returns (cursor: nat)
      modifies this
      ensures cursor == NextCursor(old(history), tailReadable, old(counter))
      ensures history == old(history) + [Entry(Some(cursor), true, text)]
      ensures counter == (if counted then Some(cursor) else old(counter)) && dreamCursor == old(dreamCursor)
      ensures View() == Step(old(View()), Append(text, tailReadable, counted))
    {
      cursor := AllocateCursor(tailReadable);
      history := history + [Entry(Some(cursor), true, text)];
      appended := appended + [Entry(Some(cursor), true, text)];
      if counted {
        counter := Some(cursor);
      }
    }

    method CompactHistory()
      modifies this`history
      ensures history == Compacted(old(history), maxHistoryEntries, dreamCursor)
      ensures View() == Step(old(View()), Compact)
    {
      if maxHistoryEntries <= 0 || |history| <= maxHistoryEntries {
        return;
      }
      var firstUnprocessed := 0;
      while firstUnprocessed < |history| && !Pending(history[firstUnprocessed], dreamCursor)
        invariant firstUnprocessed <= |history|
        invariant FirstPending(history, dreamCursor)
                  == firstUnprocessed + FirstPending(history[firstUnprocessed..], dreamCursor)
      {
        assert history[firstUnprocessed..][1..] == history[firstUnprocessed + 1..];
        firstUnprocessed := firstUnprocessed + 1;
      }
      var keepFrom := Least(|history| - maxHistoryEntries, firstUnprocessed);
      history := history[keepFrom..];
    }

    method ReadUnprocessed() returns (entries: seq<Entry>)
      ensures entries == Unprocessed(history, dreamCursor)
    {
      entries := [];
      for i := 0 to |history|
        invariant entries == Unprocessed(history[..i], dreamCursor)
      {
        assert history[..i + 1][..i] == history[..i];
        if history[i].wellFormed && CursorOf(history[i]) > dreamCursor {
          entries := entries + [history[i]];
        }
      }
      assert history[..|history|] == history;
    }

    /** The next batch with the cursor that its completion sets, or nothing. */
    method BuildDreamBatch() returns (batch: Option<(seq<Entry>, nat)>)
      ensures batch == if Batch(history, dreamCursor) == [] then None
                       else Some((Batch(history, dreamCursor), LastCursor(Batch(history, dreamCursor))))
    {
      var entries := ReadUnprocessed();
      if entries == [] {
        return None;
      }
      var taken := entries[..Least(BATCH, |entries|)];
      return Some((taken, LastCursor(taken)));
    }

    method SetLastDreamCursor(cursor: nat)
      modifies this`dreamCursor
      ensures dreamCursor == cursor
    {
      dreamCursor := cursor;
    }

    /** One Dream run: the cursor moves only if there was a batch and the run `completed`, and the journal is
        compacted in every case. */
    method RunDream(completed: bool)
      modifies this
      ensures View() == DreamRun(old(View()), completed)
    {
      DreamRunIs(View(), completed);
      var batch := BuildDreamBatch();
      if batch.Some? && completed {
        SetLastDreamCursor(batch.value.1);
        consumed := consumed + batch.value.0;
      }
      CompactHistory();
    }
  }
}
