/** Preparing a model request: repair, then merge. Preparing an earlier prepared request followed by
    new rows gives what preparing the whole raw transcript gives. */
module Requests {
  import opened Transcript
  import opened Repair
  import opened Pairing
  import opened MergeUsers

  function Prepared(norm: Normalizer, msgs: seq<Message>): seq<Message> {
    Merged(Repaired(norm, msgs))
  }

  // ----- the three conditions

  /** A placeholder row that goes out with calls, none of which has a usable name: one repair strips
      the calls and leaves the placeholder for the next repair. */
  predicate Lingers(m: Message) {
    m.role == Assistant && m.calls != [] && ValidCalls(m.calls) == [] && PlaceholderText(m.content)
  }

  predicate NothingLingers(msgs: seq<Message>) {
    msgs != [] ==> !Lingers(msgs[0]) && NothingLingers(msgs[1..])
  }

  lemma {:induction false} NothingLingersSplit(a: seq<Message>, b: seq<Message>)
    ensures NothingLingers(a + b) <==> NothingLingers(a) && NothingLingers(b)
  {
    if a == [] {
      assert a + b == b;
    } else {
      assert (a + b)[1..] == a[1..] + b;
      NothingLingersSplit(a[1..], b);
    }
  }

  /** The called ids that no real result answers. A repair fills them in. */
  function OpenIds(msgs: seq<Message>): set<string> {
    Declared(Stripped(msgs)) - Answered(Kept(msgs))
  }

  /** The new rows neither call nor answer an id that the old rows leave open. Ids that are answered may
      be used again. */
  predicate Independent(before: seq<Message>, after: seq<Message>) {
    OpenIds(before) !! Declared(Stripped(after)) + Answered(after)
  }

  // ----- rows that a repair leaves alone

  predicate CleanRow(m: Message) {
    !Omitted(m) && (m.role == Assistant ==> ValidCalls(m.calls) == m.calls)
  }

  predicate Clean(msgs: seq<Message>) {
    forall m | m in msgs :: CleanRow(m)
  }

  ghost predicate Fixed(norm: Normalizer, msgs: seq<Message>) {
    forall m | m in msgs && m.role == Tool :: m.toolId != "" && Normalized(norm, m, 0) == m
  }

  /** A transcript that a repair does not change. */
  ghost predicate Settled(norm: Normalizer, msgs: seq<Message>) {
    Clean(msgs) && Legal(msgs, {}, {}) && Declared(msgs) <= Answered(msgs) && Fixed(norm, msgs)
  }

  lemma {:induction false} CleanIsStripped(msgs: seq<Message>)
    requires Clean(msgs)
    ensures Stripped(msgs) == msgs
  {
    if msgs != [] {
      assert CleanRow(msgs[0]);
      assert msgs == [msgs[0]] + msgs[1..];
      CleanIsStripped(msgs[1..]);
      assert StripPlaceholders(msgs) == [msgs[0]] + StripPlaceholders(msgs[1..]);
      assert Trimmed(msgs[0]) == [msgs[0]];
    }
  }

  lemma {:induction false} ValidCallsFixed(calls: seq<ToolCall>)
    ensures ValidCalls(ValidCalls(calls)) == ValidCalls(calls)
    ensures |ValidCalls(calls)| <= |calls|
  {
    if calls != [] {
      var rest := ValidCalls(calls[1..]);
      ValidCallsFixed(calls[1..]);
      assert ([calls[0]] + rest)[1..] == rest && [] + rest == rest;
    }
  }

  lemma StrippedCons(m: Message, rest: seq<Message>)
    ensures Stripped([m] + rest) == (if Omitted(m) then [] else Trimmed(m)) + Stripped(rest)
  {
    var all := [m] + rest;
    assert all[1..] == rest;
    if Omitted(m) {
      assert StripPlaceholders(all) == StripPlaceholders(rest);
    } else {
      assert StripPlaceholders(all) == [m] + StripPlaceholders(rest);
      assert StripPlaceholders(all)[1..] == StripPlaceholders(rest);
    }
  }

  /** Stripping leaves clean rows exactly when nothing lingers. */
  lemma {:induction false} StrippedIsClean(msgs: seq<Message>)
    ensures Clean(Stripped(msgs)) <==> NothingLingers(msgs)
  {
    if msgs != [] {
      var m, rest := msgs[0], msgs[1..];
      StrippedIsClean(rest);
      assert msgs == [m] + rest;
      StrippedCons(m, rest);
      StrippedRow(m);
    }
  }

  lemma StrippedRow(m: Message)
    ensures Clean(if Omitted(m) then [] else Trimmed(m)) <==> !Lingers(m)
    ensures Lingers(m) ==> !Omitted(m) && Trimmed(m) == [m.(calls := [])]
  {
    ValidCallsFixed(m.calls);
    if Lingers(m) {
      assert m.content.Str? && m.content.text != "";
      assert Trimmed(m) == [m.(calls := [])];
      assert !CleanRow(Trimmed(m)[0]);
    }
  }

  // ----- rows after each pass

  lemma {:induction false} DropRows(msgs: seq<Message>, declared: set<string>, fulfilled: set<string>)
    ensures forall m | m in DropOrphans(msgs, declared, fulfilled) :: m in msgs
    ensures forall m | m in msgs && m.role != Tool :: m in DropOrphans(msgs, declared, fulfilled)
  {
    if msgs != [] {
      var m, rest := msgs[0], msgs[1..];
      assert msgs == [m] + rest;
      if KeepRow(m, declared, fulfilled) {
        DropRows(rest, DeclaredAfter(m, declared), AnsweredAfter(m, fulfilled));
      } else {
        DropRows(rest, declared, fulfilled);
      }
    }
  }

  lemma {:induction false} OwedRole(calls: seq<ToolCall>, fulfilled: set<string>)
    ensures forall m | m in MissingResults(calls, fulfilled) :: m.role == Tool
  {
    if calls != [] {
      OwedRole(calls[1..], fulfilled);
    }
  }

  lemma {:induction false} FillRows(msgs: seq<Message>, pending: seq<Message>, fulfilled: set<string>)
    ensures forall m | m in Fill(msgs, pending, fulfilled) :: m in msgs || m in pending || m.role == Tool
    ensures forall m | m in msgs || m in pending :: m in Fill(msgs, pending, fulfilled)
  {
    if msgs != [] {
      var m, rest := msgs[0], msgs[1..];
      assert msgs == [m] + rest;
      if m.role == Tool {
        FillRows(rest, pending, fulfilled);
      } else {
        OwedRole(m.calls, fulfilled);
        FillRows(rest, Owed(m, fulfilled), fulfilled);
      }
    }
  }

  /** Normalizing results changes no pairing. */
  lemma {:induction false} BudgetKeepsPairs(norm: Normalizer, msgs: seq<Message>, idx: nat,
                                            declared: set<string>, answered: set<string>)
    ensures var r := Budgeted(norm, msgs, idx);
            && Declared(r) == Declared(msgs) && Answered(r) == Answered(msgs)
            && (Legal(r, declared, answered) <==> Legal(msgs, declared, answered))
            && (Clean(r) <==> Clean(msgs))
  {
    if msgs != [] {
      var m, rest := msgs[0], msgs[1..];
      var r := Budgeted(norm, msgs, idx);
      assert msgs == [m] + rest && r == [Normalized(norm, m, idx)] + Budgeted(norm, rest, idx + 1);
      assert r[1..] == Budgeted(norm, rest, idx + 1);
      BudgetKeepsPairs(norm, rest, idx + 1, DeclaredAfter(m, declared), AnsweredAfter(m, answered));
    }
  }

  predicate AllHaveIds(msgs: seq<Message>) {
    forall m | m in msgs && m.role == Tool :: m.toolId != ""
  }

  lemma {:induction false} AnchoredHaveIds(msgs: seq<Message>, declared: set<string>)
    requires Anchored(msgs, declared)
    ensures AllHaveIds(msgs)
  {
    if msgs != [] {
      assert msgs == [msgs[0]] + msgs[1..];
      AnchoredHaveIds(msgs[1..], DeclaredAfter(msgs[0], declared));
    }
  }

  lemma {:induction false} BudgetFixes(norm: Normalizer, msgs: seq<Message>, idx: nat)
    requires Idempotent(norm) && AllHaveIds(msgs)
    ensures Fixed(norm, Budgeted(norm, msgs, idx))
  {
    if msgs != [] {
      assert msgs == [msgs[0]] + msgs[1..];
      BudgetFixes(norm, msgs[1..], idx + 1);
    }
  }

  lemma {:induction false} FixedIsBudgeted(norm: Normalizer, msgs: seq<Message>, idx: nat)
    requires Fixed(norm, msgs)
    ensures Budgeted(norm, msgs, idx) == msgs
  {
    if msgs != [] {
      assert msgs == [msgs[0]] + msgs[1..];
      assert Normalized(norm, msgs[0], idx) == msgs[0];
      FixedIsBudgeted(norm, msgs[1..], idx + 1);
    }
  }

  /** When every tool row has an id, its position does not matter. */
  lemma {:induction false} BudgetShift(norm: Normalizer, msgs: seq<Message>, i: nat, j: nat)
    requires AllHaveIds(msgs)
    ensures Budgeted(norm, msgs, i) == Budgeted(norm, msgs, j)
  {
    if msgs != [] {
      assert msgs == [msgs[0]] + msgs[1..];
      BudgetShift(norm, msgs[1..], i + 1, j + 1);
    }
  }

  lemma {:induction false} BudgetSplit(norm: Normalizer, a: seq<Message>, b: seq<Message>, idx: nat)
    requires AllHaveIds(b)
    ensures Budgeted(norm, a + b, idx) == Budgeted(norm, a, idx) + Budgeted(norm, b, 0)
  {
    if a == [] {
      assert a + b == b && Budgeted(norm, a, idx) == [];
      BudgetShift(norm, b, idx, 0);
    } else {
      assert (a + b)[1..] == a[1..] + b;
      BudgetSplit(norm, a[1..], b, idx + 1);
    }
  }

  // ----- idempotence

  /** A repair settles the transcript exactly when nothing lingers and no id that has no real result
      is declared twice. */
  lemma RepairSettles(norm: Normalizer, msgs: seq<Message>)
    requires Idempotent(norm)
    ensures Settled(norm, Repaired(norm, msgs)) <==> NothingLingers(msgs) && UnansweredOnce(msgs)
    ensures Declared(Repaired(norm, msgs)) == Declared(Stripped(msgs))
  {
    var p := Paired(msgs);
    BudgetKeepsPairs(norm, p, 0, {}, {});
    PairedCounts(msgs);
    PairedLegal(msgs);
    AnchoredHaveIds(p, {});
    BudgetFixes(norm, p, 0);
    PairedIsClean(msgs);
  }

  lemma PairedIsClean(msgs: seq<Message>)
    ensures Clean(Paired(msgs)) <==> NothingLingers(msgs)
  {
    StrippedIsClean(msgs);
    DropRows(Stripped(msgs), {}, {});
    FillRows(Kept(msgs), [], Answered(Kept(msgs)));
  }

  /** A settled transcript is left alone, also in front of new rows with fresh call ids. */
  lemma SettledStays(norm: Normalizer, msgs: seq<Message>)
    requires Settled(norm, msgs)
    ensures Repaired(norm, msgs) == msgs
  {
    CleanIsStripped(msgs);
    DropKeepsLegal(msgs, {}, {});
    FillComplete(msgs, Answered(msgs));
    FixedIsBudgeted(norm, msgs, 0);
  }

  lemma {:induction false} StrippedAnswers(msgs: seq<Message>)
    ensures Answered(Stripped(msgs)) == Answered(msgs)
  {
    if msgs != [] {
      var m, rest := msgs[0], msgs[1..];
      assert msgs == [m] + rest;
      StrippedCons(m, rest);
      var head := if Omitted(m) then [] else Trimmed(m);
      AnsweredSplit(head, Stripped(rest));
      StrippedAnswers(rest);
      assert head != [] ==> head[1..] == [];
    }
  }

  // ----- new rows behind repaired ones

  /** What becomes of new rows behind rows that declare and answer the given ids. */
  function PairedTail(declared: set<string>, answered: set<string>, b: seq<Message>): seq<Message> {
    var kept := DropOrphans(Stripped(b), declared, answered);
    Fill(kept, [], answered + Answered(kept))
  }

  lemma {:induction false} TailStarts(msgs: seq<Message>, declared: set<string>, answered: set<string>)
    requires declared - answered !! Answered(msgs)
    ensures var kept := DropOrphans(msgs, declared, answered); kept == [] || kept[0].role != Tool
  {
    if msgs != [] && !KeepRow(msgs[0], declared, answered) {
      TailStarts(msgs[1..], declared, answered);
    }
  }

  lemma KeptSplit(a: seq<Message>, b: seq<Message>)
    ensures var (d, f) := (Declared(Stripped(a)), Answered(Kept(a)));
            && Kept(a + b) == Kept(a) + DropOrphans(Stripped(b), d, f)
            && Declared(Kept(a)) == d && f <= d
  {
    StrippedSplit(a, b);
    DropIsLegal(Stripped(a), {}, {});
    AnsweredOfLegal(Kept(a), {}, {});
    DropSplit(Stripped(a), Stripped(b), {}, {});
    assert {} + Declared(Stripped(a)) == Declared(Stripped(a)) && {} + Answered(Kept(a)) == Answered(Kept(a));
  }

  /** Repairing old and new rows repairs the old ones as if they were alone, if no open id is answered late. */
  lemma PairedSplit(a: seq<Message>, b: seq<Message>)
    requires OpenIds(a) !! Answered(b)
    ensures Paired(a + b) == Paired(a) + PairedTail(Declared(Stripped(a)), Answered(Kept(a)), b)
  {
    var (d, f) := (Declared(Stripped(a)), Answered(Kept(a)));
    var ka, kb := Kept(a), DropOrphans(Stripped(b), d, f);
    KeptSplit(a, b);
    StrippedAnswers(b);
    DropAnswered(Stripped(b), d, f);
    TailStarts(Stripped(b), d, f);
    AnsweredSplit(ka, kb);
    FillSplit(ka, kb, [], f + Answered(kb));
    FillContext(ka, [], f + Answered(kb), f);
  }

  lemma TailAlone(b: seq<Message>)
    ensures PairedTail({}, {}, b) == Paired(b)
  {
    assert {} + Answered(Kept(b)) == Answered(Kept(b));
  }

  lemma NothingCalled(rows: seq<Message>)
    requires Declared(rows) == {}
    ensures Declared(Stripped(rows)) == {} && Answered(Kept(rows)) == {} && OpenIds(rows) == {}
  {
    StrippedDeclares(rows);
    DropIsLegal(Stripped(rows), {}, {});
    AnsweredOfLegal(Kept(rows), {}, {});
  }

  /** Behind rows that call no tool, new rows are repaired as if they were alone. */
  lemma PairedBehindOthers(rows: seq<Message>, b: seq<Message>)
    requires Declared(rows) == {}
    ensures Paired(rows + b) == Paired(rows) + Paired(b)
  {
    NothingCalled(rows);
    PairedSplit(rows, b);
    TailAlone(b);
  }

  lemma RepairSplit(norm: Normalizer, a: seq<Message>, b: seq<Message>)
    requires OpenIds(a) !! Answered(b)
    ensures Repaired(norm, a + b)
         == Repaired(norm, a) + Budgeted(norm, PairedTail(Declared(Stripped(a)), Answered(Kept(a)), b), 0)
  {
    var tail := PairedTail(Declared(Stripped(a)), Answered(Kept(a)), b);
    PairedSplit(a, b);
    PairedCounts(a + b);
    AnchoredHaveIds(Paired(a + b), {});
    assert forall m | m in tail :: m in Paired(a) + tail;
    BudgetSplit(norm, Paired(a), tail, 0);
  }

  /** Whether an id is answered matters only to rows that use it. */
  lemma TailContext(declared: set<string>, answered: set<string>, b: seq<Message>)
    requires answered <= declared && declared - answered !! Declared(Stripped(b)) + Answered(b)
    ensures PairedTail(declared, answered, b) == PairedTail(declared, declared, b)
  {
    var open, kept := declared - answered, DropOrphans(Stripped(b), declared, answered);
    StrippedAnswers(b);
    DropContext(Stripped(b), declared, answered, {}, open);
    assert declared + {} == declared && answered + open == declared;
    DropIsLegal(Stripped(b), declared, answered);
    FillContext(kept, [], answered + Answered(kept), declared + Answered(kept));
  }

  // ----- merging keeps a transcript settled

  lemma {:induction false} SettledByOthers(msgs: seq<Message>, declared: set<string>, answered: set<string>)
    ensures Declared(NonUser(msgs)) == Declared(msgs) && Answered(NonUser(msgs)) == Answered(msgs)
    ensures Legal(NonUser(msgs), declared, answered) <==> Legal(msgs, declared, answered)
    ensures forall m | m in NonUser(msgs) :: m in msgs
    ensures forall m | m in msgs && m.role != User :: m in NonUser(msgs)
  {
    if msgs != [] {
      var m, rest := msgs[0], msgs[1..];
      assert msgs == [m] + rest;
      assert NonUser(msgs) == if m.role == User then NonUser(rest) else [m] + NonUser(rest);
      assert m.role != User ==> NonUser(msgs)[1..] == NonUser(rest);
      SettledByOthers(rest, DeclaredAfter(m, declared), AnsweredAfter(m, answered));
    }
  }

  lemma MergeKeepsSettled(norm: Normalizer, msgs: seq<Message>)
    requires Settled(norm, msgs)
    ensures Settled(norm, Merged(msgs)) && Declared(Merged(msgs)) == Declared(msgs)
  {
    MergeKeepsOthers([], msgs);
    assert NonUser(Merged(msgs)) == NonUser(msgs);
    SettledByOthers(msgs, {}, {});
    SettledByOthers(Merged(msgs), {}, {});
    forall m | m in Merged(msgs) && m.role != User ensures m in msgs {
      assert m in NonUser(Merged(msgs));
    }
  }

  // ----- the refinement

  /** A prepared transcript in which nothing lingers and no open id was called twice leaves no id open. */
  lemma PreparedIsComplete(norm: Normalizer, a: seq<Message>)
    requires Idempotent(norm) && NothingLingers(a) && UnansweredOnce(a)
    ensures var h := Prepared(norm, a);
            && Settled(norm, h) && Repaired(norm, h) == h && Stripped(h) == h && Kept(h) == h
            && Declared(h) == Answered(h) == Declared(Stripped(a)) && OpenIds(h) == {}
  {
    var h := Prepared(norm, a);
    RepairSettles(norm, a);
    MergeKeepsSettled(norm, Repaired(norm, a));
    SettledStays(norm, h);
    CleanIsStripped(h);
    DropKeepsLegal(h, {}, {});
    AnsweredOfLegal(h, {}, {});
  }

  /** For every transcript `a` in which nothing lingers and no open id was called twice, and every delta
      `b` that leaves the open ids alone: the request built on the prepared `a` is the request built on
      everything. */
  lemma IncrementalRefinesRebuild(norm: Normalizer, a: seq<Message>, b: seq<Message>)
    requires Idempotent(norm) && NothingLingers(a) && UnansweredOnce(a) && Independent(a, b)
    ensures Prepared(norm, Prepared(norm, a) + b) == Prepared(norm, a + b)
  {
    var d := Declared(Stripped(a));
    PreparedIsComplete(norm, a);
    RepairSplit(norm, Prepared(norm, a), b);
    RepairSplit(norm, a, b);
    KeptSplit(a, b);
    TailContext(d, Answered(Kept(a)), b);
    MergeAbsorbs(Repaired(norm, a), Budgeted(norm, PairedTail(d, d, b), 0));
  }

  // ----- closed deltas

  /** Rows with usable calls in which each call has its result and each result its call. */
  ghost predicate Closed(d: seq<Message>) {
    && Legal(d, {}, {}) && Declared(d) == Answered(d)
    && UsableCalls(d)
  }

  predicate UsableCalls(d: seq<Message>) {
    d != [] ==> (d[0].role == Assistant ==> ValidCalls(d[0].calls) == d[0].calls) && UsableCalls(d[1..])
  }

  lemma {:induction false} UsableCallsSplit(a: seq<Message>, b: seq<Message>)
    ensures UsableCalls(a + b) <==> UsableCalls(a) && UsableCalls(b)
  {
    if a == [] {
      assert a + b == b;
    } else {
      assert (a + b)[1..] == a[1..] + b;
      UsableCallsSplit(a[1..], b);
    }
  }

  lemma {:induction false} ClosedStripped(d: seq<Message>, declared: set<string>, answered: set<string>)
    requires Legal(d, declared, answered) && UsableCalls(d)
    ensures Legal(Stripped(d), declared, answered)
    ensures Declared(Stripped(d)) == Declared(d) && NothingLingers(d)
  {
    if d != [] {
      var m, rest := d[0], d[1..];
      assert d == [m] + rest;
      StrippedCons(m, rest);
      ClosedStripped(rest, DeclaredAfter(m, declared), AnsweredAfter(m, answered));
      if Omitted(m) {
        assert CallIds(m.calls) == {} && declared + CallIds(m.calls) == declared;
        assert Stripped(d) == Stripped(rest);
      } else {
        assert Stripped(d) == [m] + Stripped(rest) && Stripped(d)[1..] == Stripped(rest);
      }
    }
  }

  /** On a closed delta the dropping and the filling pass do nothing: only placeholders go. */
  lemma ClosedUntouched(d: seq<Message>)
    requires Closed(d)
    ensures Kept(d) == Stripped(d) && Paired(d) == Stripped(d)
  {
    ClosedStripped(d, {}, {});
    StrippedAnswers(d);
    DropKeepsLegal(Stripped(d), {}, {});
    FillComplete(Stripped(d), Answered(Stripped(d)));
  }

  lemma {:induction false} StrippedDeclares(msgs: seq<Message>)
    ensures Declared(Stripped(msgs)) <= Declared(msgs)
  {
    if msgs != [] {
      var m, rest := msgs[0], msgs[1..];
      assert msgs == [m] + rest;
      StrippedCons(m, rest);
      var head := if Omitted(m) then [] else Trimmed(m);
      DeclaredSplit(head, Stripped(rest));
      StrippedDeclares(rest);
      ValidCallsSubset(m.calls);
      assert head != [] ==> head[1..] == [];
    }
  }

  lemma {:induction false} ValidCallsSubset(calls: seq<ToolCall>)
    ensures forall c | c in ValidCalls(calls) :: c in calls
    ensures CallIds(ValidCalls(calls)) <= CallIds(calls)
  {
    if calls != [] {
      ValidCallsSubset(calls[1..]);
      assert calls == [calls[0]] + calls[1..];
    }
  }

  /** Anchored rows lose no id when orphans are dropped. */
  lemma {:induction false} DropAnchored(msgs: seq<Message>, declared: set<string>, fulfilled: set<string>)
    requires Anchored(msgs, declared)
    ensures Answered(msgs) <= fulfilled + Answered(DropOrphans(msgs, declared, fulfilled))
  {
    if msgs != [] {
      var m, rest := msgs[0], msgs[1..];
      assert msgs == [m] + rest;
      AnsweredCons(m, rest);
      var d := DeclaredAfter(m, declared);
      if KeepRow(m, declared, fulfilled) {
        DropAnchored(rest, d, AnsweredAfter(m, fulfilled));
        AnsweredCons(m, DropOrphans(rest, d, AnsweredAfter(m, fulfilled)));
      } else {
        DropAnchored(rest, declared, fulfilled);
      }
    }
  }

  lemma {:induction false} AnchoredMore(msgs: seq<Message>, declared: set<string>, more: set<string>)
    requires Anchored(msgs, declared) && declared <= more
    ensures Anchored(msgs, more)
  {
    if msgs != [] {
      AnchoredMore(msgs[1..], DeclaredAfter(msgs[0], declared), DeclaredAfter(msgs[0], more));
    }
  }

  /** A closed delta opens no id: an id that it calls is answered by it or was answered before. */
  lemma ClosedOpensNothing(a: seq<Message>, d: seq<Message>)
    requires Closed(d)
    ensures OpenIds(a + d) <= OpenIds(a) - Declared(d)
  {
    var (ids, f) := (Declared(Stripped(a)), Answered(Kept(a)));
    var kept := DropOrphans(Stripped(d), ids, f);
    KeptSplit(a, d);
    StrippedSplit(a, d);
    DeclaredSplit(Stripped(a), Stripped(d));
    ClosedStripped(d, {}, {});
    StrippedAnswers(d);
    LegalIffAnchoredOnce(Stripped(d), {}, {});
    AnchoredMore(Stripped(d), {}, ids);
    DropAnchored(Stripped(d), ids, f);
    AnsweredSplit(Kept(a), kept);
  }

  /** Accepting a closed delta keeps the condition on open ids. */
  lemma UnansweredOnceGrows(a: seq<Message>, d: seq<Message>)
    requires UnansweredOnce(a) && Closed(d)
    ensures UnansweredOnce(a + d)
  {
    ClosedOpensNothing(a, d);
    ClosedStripped(d, {}, {});
    StrippedSplit(a, d);
    forall id | id in Declared(Stripped(a + d)) && id !in Answered(Kept(a + d))
      ensures Calls(Stripped(a + d), id) == 1
    {
      assert id in OpenIds(a + d);
      DeclaredNonEmpty(Stripped(a + d), id);
      CallsSplit(Stripped(a), Stripped(d), id);
      CallsDeclared(Stripped(d), id);
    }
  }
}
