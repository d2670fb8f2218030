/** What happens when a transcript that ends in a plain answer gets the fallback for an empty answer: the answer is
    replaced after it was sent. */
module StaleAnswers {
  import opened Transcript
  import opened Text
  import opened Repair
  import opened Pairing
  import opened MergeUsers
  import opened Requests
  import opened RunnerTurn

  /** The fallback for an empty answer leaves the accepted rows as they were sent exactly when the
      transcript does not end in another plain answer. */
  lemma BlankKeepsAccepted(norm: Normalizer, msgs: seq<Message>, injected: seq<Message>)
    ensures AfterResponse(norm, msgs, BlankThen(injected))[..|msgs|] == msgs
       <==> !PlainTail(msgs) || msgs[|msgs| - 1].content == Str(EMPTY_FINAL_RESPONSE_MESSAGE)
  {
    var after := AfterResponse(norm, msgs, BlankThen(injected));
    if PlainTail(msgs) {
      assert after[..|msgs|][|msgs| - 1] == after[|msgs| - 1];
      assert msgs == msgs[..|msgs| - 1] + [msgs[|msgs| - 1]];
    }
  }

  lemma FallbackIsShown()
    ensures !Omitted(AssistantRow(EMPTY_FINAL_RESPONSE_MESSAGE, []))
  {
    var text := EMPTY_FINAL_RESPONSE_MESSAGE;
    assert text[0] == 'I' && text[|text| - 1] == '.';
    StripSolid(text);
    assert PLACEHOLDER[0] == '[';
  }

  // ----- rows without tools at the end of a transcript

  ghost predicate NoTools(rows: seq<Message>) {
    forall m | m in rows :: m.role != Tool && (m.role == Assistant ==> m.calls == [])
  }

  /** Rows without tools go into a repaired transcript as they are, but for placeholders. */
  lemma {:induction false} RepairedBehind(norm: Normalizer, before: seq<Message>, rows: seq<Message>)
    requires NoTools(rows)
    ensures Repaired(norm, before + rows) == Repaired(norm, before) + Stripped(rows)
  {
    var d, f := Declared(Stripped(before)), Answered(Kept(before));
    UserRowsClosed(rows, {}, {});
    RepairSplit(norm, before, rows);
    TailIsStripped(rows, d, f);
    NoResults(rows);
    FixedIsBudgeted(norm, Stripped(rows), 0);
  }

  lemma {:induction false} TailIsStripped(rows: seq<Message>, d: set<string>, f: set<string>)
    requires NoTools(rows)
    ensures PairedTail(d, f, rows) == Stripped(rows)
  {
    UserRowsClosed(rows, d, f);
    ClosedStripped(rows, d, f);
    DropKeepsLegal(Stripped(rows), d, f);
    FillComplete(Stripped(rows), f + Answered(Stripped(rows)));
  }

  lemma {:induction false} NoResults(rows: seq<Message>)
    requires NoTools(rows)
    ensures forall m | m in Stripped(rows) :: m.role != Tool
  {
    if rows != [] {
      var m, rest := rows[0], rows[1..];
      assert rows == [m] + rest;
      StrippedCons(m, rest);
      NoResults(rest);
    }
  }

  /** What a request shows of a plain answer. */
  function Shown(a: Message): seq<Message> {
    if Omitted(a) then [] else [a]
  }

  lemma AnswerStripped(a: Message, injected: seq<Message>)
    requires Plain(a)
    ensures NonUser(Stripped([a] + injected)) == Shown(a) + NonUser(Stripped(injected))
  {
    StrippedCons(a, injected);
    assert Trimmed(a) == [a];
    NonUserSplit(Shown(a), Stripped(injected));
    assert [a][1..] == [];
  }

  lemma {:induction false} PreparedBehind(norm: Normalizer, before: seq<Message>, rows: seq<Message>)
    requires NoTools(rows)
    ensures NonUser(Prepared(norm, before + rows)) == NonUser(Repaired(norm, before)) + NonUser(Stripped(rows))
  {
    RepairedBehind(norm, before, rows);
    MergeKeepsOthers([], Repaired(norm, before + rows));
    NonUserSplit(Repaired(norm, before), Stripped(rows));
  }

  /** The rows of a prepared transcript that are no user rows, with an answer and further rows at its end. */
  lemma {:induction false} AnswerInRequest(norm: Normalizer, before: seq<Message>, a: Message, injected: seq<Message>)
    requires Plain(a) && AllUser(injected)
    ensures NonUser(Prepared(norm, before + ([a] + injected)))
         == NonUser(Repaired(norm, before)) + (Shown(a) + NonUser(Stripped(injected)))
  {
    PreparedBehind(norm, before, [a] + injected);
    AnswerStripped(a, injected);
  }

  lemma TwoAnswers(x: seq<Message>, a: seq<Message>, b: Message, z: seq<Message>)
    requires a == [] || (|a| == 1 && a[0] != b)
    ensures x + (a + z) != x + ([b] + z)
  {
    if a == [] {
      assert |x + (a + z)| != |x + ([b] + z)|;
    } else {
      assert (x + (a + z))[|x|] != (x + ([b] + z))[|x|];
    }
  }

  /** Two requests that differ in a plain answer that one of them shows are different, for any transcript. */
  lemma {:induction false} OtherAnswerOtherRequest(norm: Normalizer, before: seq<Message>, a: Message, b: Message,
                                                   injected: seq<Message>)
    requires Plain(a) && Plain(b) && a != b && !Omitted(b) && AllUser(injected)
    ensures Prepared(norm, before + ([a] + injected)) != Prepared(norm, before + ([b] + injected))
  {
    AnswerInRequest(norm, before, a, injected);
    AnswerInRequest(norm, before, b, injected);
    TwoAnswers(NonUser(Repaired(norm, before)), Shown(a), b, NonUser(Stripped(injected)));
  }

  // ----- the request behind the fallback

  /** Every transcript that ends in another plain answer: the raw rows behind what was sent, put behind the sent
      ones, keep the old answer, and a rebuilt request shows the fallback. */
  lemma {:induction false} OldAnswerStays(norm: Normalizer, msgs: seq<Message>, injected: seq<Message>)
    requires PlainTail(msgs) && msgs[|msgs| - 1].content != Str(EMPTY_FINAL_RESPONSE_MESSAGE) && AllUser(injected)
    ensures var after := AfterResponse(norm, msgs, BlankThen(injected));
            && after[|msgs|..] == injected
            && Prepared(norm, msgs + after[|msgs|..]) != Prepared(norm, after)
  {
    var before, a, b := msgs[..|msgs| - 1], msgs[|msgs| - 1], AssistantRow(EMPTY_FINAL_RESPONSE_MESSAGE, []);
    assert msgs == before + [a];
    RunnerTurn.Assoc(before, [a], injected);
    RunnerTurn.Assoc(before, [b], injected);
    FallbackIsShown();
    OtherAnswerOtherRequest(norm, before, a, b, injected);
  }

  /** For every transcript whose requests can be built on: after an empty answer and further input, the request
      built on the sent one is the rebuilt request exactly if the transcript did not end in another plain answer. */
  lemma {:induction false} FallbackRefinesIff(norm: Normalizer, msgs: seq<Message>, injected: seq<Message>)
    requires Idempotent(norm) && NothingLingers(msgs) && UnansweredOnce(msgs) && AllUser(injected)
    ensures var after := AfterResponse(norm, msgs, BlankThen(injected));
            (Prepared(norm, Prepared(norm, msgs) + after[|msgs|..]) == Prepared(norm, after)
             <==> !PlainTail(msgs) || msgs[|msgs| - 1].content == Str(EMPTY_FINAL_RESPONSE_MESSAGE))
  {
    var after := AfterResponse(norm, msgs, BlankThen(injected));
    FallbackIsIndependent(norm, msgs, injected);
    IncrementalRefinesRebuild(norm, msgs, after[|msgs|..]);
    RebuiltIff(norm, msgs, injected);
  }

  lemma {:induction false} RebuiltIff(norm: Normalizer, msgs: seq<Message>, injected: seq<Message>)
    requires AllUser(injected)
    ensures var after := AfterResponse(norm, msgs, BlankThen(injected));
            (Prepared(norm, msgs + after[|msgs|..]) == Prepared(norm, after)
             <==> !PlainTail(msgs) || msgs[|msgs| - 1].content == Str(EMPTY_FINAL_RESPONSE_MESSAGE))
  {
    BlankKeepsAccepted(norm, msgs, injected);
    if !PlainTail(msgs) || msgs[|msgs| - 1].content == Str(EMPTY_FINAL_RESPONSE_MESSAGE) {
      FrontAndBack(AfterResponse(norm, msgs, BlankThen(injected)), msgs);
    } else {
      OldAnswerStays(norm, msgs, injected);
    }
  }

  lemma FrontAndBack(after: seq<Message>, msgs: seq<Message>)
    requires |msgs| <= |after| && after[..|msgs|] == msgs
    ensures msgs + after[|msgs|..] == after
  {
  }

  lemma {:induction false} FallbackIsIndependent(norm: Normalizer, msgs: seq<Message>, injected: seq<Message>)
    requires AllUser(injected)
    ensures Independent(msgs, AfterResponse(norm, msgs, BlankThen(injected))[|msgs|..])
  {
    var rows := AfterResponse(norm, msgs, BlankThen(injected))[|msgs|..];
    assert NoTools(rows);
    UserRowsClosed(rows, {}, {});
    StrippedDeclares(rows);
  }

  /** One plain answer and one row of input behind it. */
  lemma {:induction false} StaleAnswer(norm: Normalizer, a: Message, u: Message)
    requires Plain(a) && a.content != Str(EMPTY_FINAL_RESPONSE_MESSAGE) && u.role == User
    ensures var after := AfterResponse(norm, [a], BlankThen([u]));
            && |after| == 2
            && Prepared(norm, [a] + after[1..]) != Prepared(norm, after)
  {
    OldAnswerStays(norm, [a], [u]);
  }
}
