/** What the repair of a transcript guarantees: tool rows and tool calls pair up, nothing else is
    lost, and the repair is compositional when no call id is used again. */
module Pairing {
  import opened Transcript
  import opened Repair

  /** How many tool rows answer `id`, and how many calls declare it. */
  function Results(msgs: seq<Message>, id: string): nat {
    if msgs == [] then 0
    else (if msgs[0].role == Tool && msgs[0].toolId == id then 1 else 0) + Results(msgs[1..], id)
  }

  function CallCount(calls: seq<ToolCall>, id: string): nat {
    if calls == [] then 0
    else (if calls[0].Call? && calls[0].id == id then 1 else 0) + CallCount(calls[1..], id)
  }

  function Calls(msgs: seq<Message>, id: string): nat {
    if msgs == [] then 0
    else (if msgs[0].role == Assistant then CallCount(msgs[0].calls, id) else 0) + Calls(msgs[1..], id)
  }

  lemma {:induction false} ResultsSplit(a: seq<Message>, b: seq<Message>, id: string)
    ensures Results(a + b, id) == Results(a, id) + Results(b, id)
  {
    if a == [] {
      assert a + b == b;
    } else {
      assert (a + b)[1..] == a[1..] + b;
      ResultsSplit(a[1..], b, id);
    }
  }

  lemma {:induction false} CallsSplit(a: seq<Message>, b: seq<Message>, id: string)
    ensures Calls(a + b, id) == Calls(a, id) + Calls(b, id)
  {
    if a == [] {
      assert a + b == b;
    } else {
      assert (a + b)[1..] == a[1..] + b;
      CallsSplit(a[1..], b, id);
    }
  }

  lemma {:induction false} ResultsAnswered(msgs: seq<Message>, id: string)
    requires id != ""
    ensures Results(msgs, id) > 0 <==> id in Answered(msgs)
  {
    if msgs != [] {
      ResultsAnswered(msgs[1..], id);
    }
  }

  lemma {:induction false} CallCountIds(calls: seq<ToolCall>, id: string)
    requires id != ""
    ensures CallCount(calls, id) > 0 <==> id in CallIds(calls)
  {
    if calls != [] {
      CallCountIds(calls[1..], id);
      assert calls == [calls[0]] + calls[1..];
    }
  }

  lemma {:induction false} CallsDeclared(msgs: seq<Message>, id: string)
    requires id != ""
    ensures Calls(msgs, id) > 0 <==> id in Declared(msgs)
  {
    if msgs != [] {
      CallCountIds(msgs[0].calls, id);
      CallsDeclared(msgs[1..], id);
    }
  }

  /** Each tool row has an id that an earlier row declares. */
  predicate Anchored(msgs: seq<Message>, declared: set<string>) {
    msgs != [] ==>
      && (msgs[0].role == Tool ==> msgs[0].toolId != "" && msgs[0].toolId in declared)
      && Anchored(msgs[1..], DeclaredAfter(msgs[0], declared))
  }

  /** Legal is anchored plus no id answered twice. */
  lemma {:induction false} LegalIffAnchoredOnce(msgs: seq<Message>, declared: set<string>, answered: set<string>)
    ensures Legal(msgs, declared, answered) <==>
            && Anchored(msgs, declared)
            && (forall id | id in Answered(msgs) :: id !in answered && Results(msgs, id) == 1)
  {
    if msgs != [] {
      var m, rest := msgs[0], msgs[1..];
      LegalIffAnchoredOnce(rest, DeclaredAfter(m, declared), AnsweredAfter(m, answered));
      if m.role == Tool && m.toolId != "" {
        ResultsAnswered(rest, m.toolId);
        assert Answered(msgs) == {m.toolId} + Answered(rest);
      } else {
        assert Answered(msgs) == Answered(rest);
        forall id | id in Answered(rest) ensures Results(msgs, id) == Results(rest, id) {
          AnsweredNonEmpty(rest, id);
        }
      }
    }
  }

  lemma {:induction false} AnsweredNonEmpty(msgs: seq<Message>, id: string)
    requires id in Answered(msgs)
    ensures id != ""
  {
    if id in Answered(msgs[1..]) {
      AnsweredNonEmpty(msgs[1..], id);
    }
  }

  lemma {:induction false} AnchoredSplit(a: seq<Message>, b: seq<Message>, declared: set<string>)
    ensures Anchored(a + b, declared) <==> Anchored(a, declared) && Anchored(b, declared + Declared(a))
  {
    if a == [] {
      assert a + b == b && declared + Declared(a) == declared;
    } else {
      assert (a + b)[1..] == a[1..] + b;
      var d := DeclaredAfter(a[0], declared);
      AnchoredSplit(a[1..], b, d);
      assert d + Declared(a[1..]) == declared + Declared(a);
    }
  }

  // ----- filling in

  lemma {:induction false} OwedRows(calls: seq<ToolCall>, fulfilled: set<string>, declared: set<string>)
    requires CallIds(calls) <= declared
    ensures Anchored(MissingResults(calls, fulfilled), declared)
    ensures Declared(MissingResults(calls, fulfilled)) == {}
  {
    if calls != [] {
      assert CallIds(calls[1..]) <= CallIds(calls);
      assert calls[0].Call? && calls[0].id != "" ==> calls[0].id in CallIds(calls);
      OwedRows(calls[1..], fulfilled, declared);
      var owed, rest := MissingResults(calls, fulfilled), MissingResults(calls[1..], fulfilled);
      assert owed != rest ==> owed[1..] == rest;
    }
  }

  lemma {:induction false} OwedCounts(calls: seq<ToolCall>, fulfilled: set<string>, id: string)
    requires id != ""
    ensures Results(MissingResults(calls, fulfilled), id) == if id in fulfilled then 0 else CallCount(calls, id)
    ensures Calls(MissingResults(calls, fulfilled), id) == 0
  {
    if calls != [] {
      OwedCounts(calls[1..], fulfilled, id);
      var owed, rest := MissingResults(calls, fulfilled), MissingResults(calls[1..], fulfilled);
      assert owed != rest ==> owed[1..] == rest;
    }
  }

  lemma FillCons(m: Message, rest: seq<Message>, pending: seq<Message>, fulfilled: set<string>)
    ensures Fill([m] + rest, pending, fulfilled)
         == if m.role == Tool then [m] + Fill(rest, pending, fulfilled)
            else pending + ([m] + Fill(rest, Owed(m, fulfilled), fulfilled))
  {
    assert ([m] + rest)[0] == m && ([m] + rest)[1..] == rest;
  }

  lemma {:induction false} FillDeclares(msgs: seq<Message>, pending: seq<Message>, fulfilled: set<string>)
    requires Declared(pending) == {}
    ensures Declared(Fill(msgs, pending, fulfilled)) == Declared(msgs)
  {
    if msgs != [] {
      var m, rest := msgs[0], msgs[1..];
      var owed := if m.role == Tool then pending else Owed(m, fulfilled);
      assert msgs == [m] + rest;
      OwedRows(m.calls, fulfilled, CallIds(m.calls));
      FillDeclares(rest, owed, fulfilled);
      FillCons(m, rest, pending, fulfilled);
      AnsweredCons(m, Fill(rest, owed, fulfilled));
      AnsweredCons(m, rest);
      DeclaredSplit(pending, [m] + Fill(rest, owed, fulfilled));
    }
  }

  /** Filling in keeps every row anchored. */
  lemma {:induction false} FillAnchored(msgs: seq<Message>, pending: seq<Message>, fulfilled: set<string>,
                                        declared: set<string>)
    requires Anchored(msgs, declared) && Anchored(pending, declared) && Declared(pending) == {}
    ensures Anchored(Fill(msgs, pending, fulfilled), declared)
  {
    if msgs != [] {
      var m, rest := msgs[0], msgs[1..];
      var d := DeclaredAfter(m, declared);
      var owed := if m.role == Tool then pending else Owed(m, fulfilled);
      assert msgs == [m] + rest;
      OwedRows(m.calls, fulfilled, declared + CallIds(m.calls));
      FillAnchored(rest, owed, fulfilled, d);
      FillCons(m, rest, pending, fulfilled);
      var filled := Fill(rest, owed, fulfilled);
      assert ([m] + filled)[1..] == filled;
      AnchoredSplit(pending, [m] + filled, declared);
      assert declared + Declared(pending) == declared;
    }
  }

  lemma {:induction false} FillCalls(msgs: seq<Message>, pending: seq<Message>, fulfilled: set<string>, id: string)
    requires id != ""
    ensures Calls(Fill(msgs, pending, fulfilled), id) == Calls(msgs, id) + Calls(pending, id)
  {
    if msgs != [] {
      var m, rest := msgs[0], msgs[1..];
      var owed := if m.role == Tool then pending else Owed(m, fulfilled);
      FillCalls(rest, owed, fulfilled, id);
      var tail := [m] + Fill(rest, owed, fulfilled);
      assert tail[1..] == Fill(rest, owed, fulfilled);
      if m.role != Tool {
        OwedCounts(m.calls, fulfilled, id);
        assert Fill(msgs, pending, fulfilled) == pending + tail;
        CallsSplit(pending, tail, id);
      }
    }
  }

  /** Filling in answers each unanswered id once for every call that declares it. */
  lemma {:induction false} FillResults(msgs: seq<Message>, pending: seq<Message>, fulfilled: set<string>, id: string)
    requires id != ""
    ensures Results(Fill(msgs, pending, fulfilled), id)
         == Results(msgs, id) + Results(pending, id) + (if id in fulfilled then 0 else Calls(msgs, id))
  {
    if msgs != [] {
      var m, rest := msgs[0], msgs[1..];
      var owed := if m.role == Tool then pending else Owed(m, fulfilled);
      FillResults(rest, owed, fulfilled, id);
      var tail := [m] + Fill(rest, owed, fulfilled);
      assert tail[1..] == Fill(rest, owed, fulfilled);
      assert msgs == [m] + rest;
      FillCons(m, rest, pending, fulfilled);
      if m.role != Tool {
        OwedCounts(m.calls, fulfilled, id);
        ResultsSplit(pending, tail, id);
      }
    }
  }

  /** The transcript between the dropping and the filling pass. */
  function Kept(msgs: seq<Message>): seq<Message> {
    DropOrphans(Stripped(msgs), {}, {})
  }

  lemma {:induction false} DropCounts(msgs: seq<Message>, declared: set<string>, fulfilled: set<string>, id: string)
    ensures Calls(DropOrphans(msgs, declared, fulfilled), id) == Calls(msgs, id)
  {
    if msgs != [] {
      var m, rest := msgs[0], msgs[1..];
      if KeepRow(m, declared, fulfilled) {
        DropCounts(rest, DeclaredAfter(m, declared), AnsweredAfter(m, fulfilled), id);
        CallsSplit([m], DropOrphans(rest, DeclaredAfter(m, declared), AnsweredAfter(m, fulfilled)), id);
        CallsSplit([m], rest, id);
        assert msgs == [m] + rest;
      } else {
        DropCounts(rest, declared, fulfilled, id);
      }
    }
  }

  /** The pairing guarantee, for every transcript and every id: each result answers an earlier call;
      an id that keeps a real result has exactly that one; any other id gets one result per call. */
  lemma PairedCounts(msgs: seq<Message>)
    ensures Anchored(Paired(msgs), {})
    ensures Declared(Paired(msgs)) == Declared(Stripped(msgs))
    ensures forall id | id != "" ::
      && Calls(Paired(msgs), id) == Calls(Stripped(msgs), id)
      && Results(Paired(msgs), id) == if id in Answered(Kept(msgs)) then 1 else Calls(Stripped(msgs), id)
  {
    var kept := Kept(msgs);
    DropIsLegal(Stripped(msgs), {}, {});
    LegalIffAnchoredOnce(kept, {}, {});
    FillAnchored(kept, [], Answered(kept), {});
    FillDeclares(kept, [], Answered(kept));
    forall id | id != ""
      ensures Calls(Paired(msgs), id) == Calls(Stripped(msgs), id)
      ensures Results(Paired(msgs), id) == if id in Answered(kept) then 1 else Calls(Stripped(msgs), id)
    {
      FillCalls(kept, [], Answered(kept), id);
      FillResults(kept, [], Answered(kept), id);
      DropCounts(Stripped(msgs), {}, {}, id);
      ResultsAnswered(kept, id);
    }
  }

  /** No id is declared twice without keeping a real result. */
  ghost predicate UnansweredOnce(msgs: seq<Message>) {
    forall id | id in Declared(Stripped(msgs)) && id !in Answered(Kept(msgs)) :: Calls(Stripped(msgs), id) == 1
  }

  /** Each declared call has a result, and the repaired transcript is legal exactly when no id that
      lost its result is declared twice. */
  lemma PairedLegal(msgs: seq<Message>)
    ensures Declared(Paired(msgs)) == Answered(Paired(msgs))
    ensures Legal(Paired(msgs), {}, {}) <==> UnansweredOnce(msgs)
  {
    var r := Paired(msgs);
    PairedCounts(msgs);
    LegalIffAnchoredOnce(r, {}, {});
    DropIsLegal(Stripped(msgs), {}, {});
    AnsweredOfLegal(Kept(msgs), {}, {});
    AnchoredIds(r, {});
    forall id | id in Declared(r) ensures id in Answered(r) {
      DeclaredNonEmpty(r, id);
      CallsDeclared(r, id);
      ResultsAnswered(r, id);
    }
    forall id | id in Declared(r)
      ensures id != "" && (id in Answered(Kept(msgs)) || Results(r, id) == Calls(Stripped(msgs), id))
    {
      DeclaredNonEmpty(r, id);
    }
  }

  lemma {:induction false} AnchoredIds(msgs: seq<Message>, declared: set<string>)
    requires Anchored(msgs, declared)
    ensures Answered(msgs) <= declared + Declared(msgs)
  {
    if msgs != [] {
      AnchoredIds(msgs[1..], DeclaredAfter(msgs[0], declared));
    }
  }

  lemma {:induction false} DeclaredNonEmpty(msgs: seq<Message>, id: string)
    requires id in Declared(msgs)
    ensures id != ""
  {
    var i := DeclaredWitness(msgs, id);
  }

  /** With distinct call ids, every call has exactly one result, and that result comes later. */
  lemma EveryCallAnsweredOnce(msgs: seq<Message>, i: nat, id: string)
    requires forall x | x in Declared(Stripped(msgs)) :: Calls(Stripped(msgs), x) == 1
    requires i < |Paired(msgs)| && Paired(msgs)[i].role == Assistant && id in CallIds(Paired(msgs)[i].calls)
    ensures Results(Paired(msgs), id) == 1
    ensures Results(Paired(msgs)[i + 1..], id) == 1
  {
    var r := Paired(msgs);
    PairedCounts(msgs);
    DeclaredAt(r, i);
    DeclaredNonEmpty(r, id);
    CallsDeclared(r, id);
    var before, after := r[..i], r[i..];
    assert r == before + after && after == [r[i]] + r[i + 1..];
    CallsSplit(before, after, id);
    CallCountIds(r[i].calls, id);
    CallsDeclared(before, id);
    AnchoredSplit(before, after, {});
    AnchoredIds(before, {});
    ResultsSplit(before, after, id);
    ResultsAnswered(before, id);
  }
}
