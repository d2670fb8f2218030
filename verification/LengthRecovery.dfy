/** The answer of one run whose replies may be truncated: truncated segments are kept in a chain and joined
    with the reply that ends it. */
module LengthRecovery {
  import opened Transcript
  import opened Text

  const MAX_RECOVERIES: nat := 3
  const MAX_EMPTY_RETRIES: nat := 2
  /** What a run says in the end: a text, that no text came back, or that the model failed. */
  datatype Final = Says(text: string) | SaysNothing | Breaks(text: string)

  /** Why the model stopped. `Filtered` is a refusal or a content filter. */
  datatype Reason = Stopped | Truncated | Failed | Filtered

  /** A reply without tool calls: the text as received and the text after cleaning. */
  datatype Reply = Reply(reason: Reason, raw: string, clean: string)

  /** One iteration. `injected`: input arrived before the request. `resumed`: input arrived, or a continuation
      was asked for, after the answer. `fallback` is the reply to the finalization request that follows too
      many blank replies. */
  datatype Iteration =
    | Tools(injected: bool)
    | Answer(injected: bool, reply: Reply, fallback: Reply, resumed: bool)

  /** Put the outer blanks of `original` back around its cleaned text. */
  function Restored(content: string, original: string): string {
    if original == "" then content else Leading(original) + content + Trailing(original)
  }

  /** The values that the loop updates. */
  datatype Chain = Chain(parts: seq<string>, pending: bool, empties: nat, answer: Option<Final>)

  const START: Chain := Chain([], false, 0, None)

  /** The input snapshot before a request ends a pending segment, and the chain with it if there is input. */
  function SegmentEnds(s: Chain, injected: bool): Chain {
    if !s.pending then s else s.(pending := false, parts := if injected then [] else s.parts)
  }

  predicate BlankReply(r: Reply) {
    r.reason.Stopped? && IsBlank(r.clean)
  }

  /** The chain and the reply that ends it. */
  function WholeText(parts: seq<string>, r: Reply): string {
    if parts == [] then r.clean else Strip(Concat(parts) + Restored(r.clean, r.raw))
  }

  function Finished(s: Chain, r: Reply, resumed: bool): Chain {
    if resumed then s.(parts := [])
    else
      s.(answer := Some(if r.reason.Failed? then Breaks(r.clean)
                        else if IsBlank(r.clean) then SaysNothing
                        else Says(WholeText(s.parts, r))))
  }

  function Replied(s: Chain, r: Reply, resumed: bool): Chain {
    if r.reason.Truncated? && |s.parts| < MAX_RECOVERIES
    then s.(parts := s.parts + [Restored(r.clean, r.raw)], pending := true)
    else Finished(s, r, resumed)
  }

  function Step(s: Chain, it: Iteration): Chain {
    if s.answer.Some? then s
    else
      var t := SegmentEnds(s, it.injected);
      match it
      case Tools(_) => t.(parts := [], empties := 0)
      case Answer(_, reply, fallback, resumed) =>
        if !BlankReply(reply) then Replied(t, reply, resumed)
        else
          var u := t.(empties := t.empties + 1);
          if u.empties < MAX_EMPTY_RETRIES then u else Replied(u, fallback, resumed)
  }

  function After(its: seq<Iteration>): Chain {
    if its == [] then START else Step(After(its[..|its| - 1]), its[|its| - 1])
  }

  /** The end of a run; `terminal` is what it says when it has used up its iterations. */
  function Ending(its: seq<Iteration>, terminal: string): Final {
    var s := SegmentEnds(After(its), false);
    if s.answer.Some? then s.answer.value
    else if s.parts == [] then Says(terminal)
    else Says(Strip(RStrip(Concat(s.parts)) + (BREAK + LStrip(terminal))))
  }

  // ----- restoring outer blanks

  /** Restoring undoes the strip of every text but a blank one, which it doubles. */
  lemma RestoreUndoesStrip(o: string)
    ensures Restored(Strip(o), o) == o <==> o == "" || !IsBlank(o)
    ensures IsBlank(o) ==> Restored(Strip(o), o) == o + o
  {
    StripBlank(o);
    if !IsBlank(o) {
      StripDecomposes(o);
    } else {
      DropLeftFacts(IsSpace, o);
      DropRightFacts(IsSpace, o);
      BlankStripsAway(o);
    }
  }

  lemma BlankStripsAway(o: string)
    requires IsBlank(o)
    ensures LStrip(o) == "" && RStrip(o) == ""
  {
    SkipRightFacts(IsSpace, o, 0);
    SkipLeftFacts(IsSpace, o, |o|);
  }

  // ----- the chain as a function of the history

  /** The reply that counts, unless a blank one is simply tried again. */
  function Counted(s: Chain, it: Iteration): Option<Reply>
    requires it.Answer?
  {
    if !BlankReply(it.reply) then Some(it.reply)
    else if s.empties + 1 < MAX_EMPTY_RETRIES then None
    else Some(it.fallback)
  }

  /** The raw texts of the truncated replies since the chain was last cleared: by tools, by input while a
      segment was pending, or by what follows an answer. */
  function Segments(its: seq<Iteration>): seq<string> {
    if its == [] then []
    else
      var (init, it) := (its[..|its| - 1], its[|its| - 1]);
      SegmentsOn(After(init), Segments(init), it)
  }

  function SegmentsOn(s: Chain, segments: seq<string>, it: Iteration): seq<string> {
    if s.answer.Some? then segments
    else if it.Tools? then []
    else
      var kept := if s.pending && it.injected then [] else segments;
      var r := Counted(s, it);
      if r.None? then kept
      else if r.value.reason.Truncated? && |kept| < MAX_RECOVERIES then kept + [r.value.raw]
      else if it.resumed then [] else kept
  }

  /** The reply whose text an iteration uses: as a truncated segment, or as the end of the answer. */
  function Used(s: Chain, it: Iteration): Option<Reply> {
    if s.answer.Some? || it.Tools? || Counted(s, it).None? then None
    else
      var r := Counted(s, it).value;
      if r.reason.Truncated? && |SegmentEnds(s, it.injected).parts| < MAX_RECOVERIES then Some(r)
      else if it.resumed || r.reason.Failed? || IsBlank(r.clean) then None
      else Some(r)
  }

  predicate StripsAt(s: Chain, it: Iteration) {
    Used(s, it).Some? ==> Used(s, it).value.clean == Strip(Used(s, it).value.raw)
  }

  /** Cleaning strips blanks from the replies that are used. Nothing is asked of the others. */
  predicate CleaningStrips(its: seq<Iteration>) {
    its == [] || (CleaningStrips(its[..|its| - 1]) && StripsAt(After(its[..|its| - 1]), its[|its| - 1]))
  }

  /** What restoring makes of a segment: blanks are doubled, every other text is as it was received. */
  function AsKept(segment: string): string {
    if IsBlank(segment) then segment + segment else segment
  }

  function AllKept(segments: seq<string>): (r: seq<string>)
    ensures |r| == |segments|
  {
    if segments == [] then []
    else AllKept(segments[..|segments| - 1]) + [AsKept(segments[|segments| - 1])]
  }

  lemma AllKeptSnoc(segments: seq<string>, segment: string)
    ensures AllKept(segments + [segment]) == AllKept(segments) + [AsKept(segment)]
  {
    assert (segments + [segment])[..|segments|] == segments;
  }

  lemma RestoredIsKept(r: Reply)
    requires r.clean == Strip(r.raw)
    ensures Restored(r.clean, r.raw) == AsKept(r.raw)
  {
    RestoreUndoesStrip(r.raw);
  }

  /** The chain never holds more than three segments. */
  lemma {:induction false} ChainIsShort(its: seq<Iteration>)
    ensures |After(its).parts| <= 3
  {
    if its != [] {
      ChainIsShort(its[..|its| - 1]);
    }
  }

  lemma ReplyIsKept(s: Chain, r: Reply, resumed: bool, segments: seq<string>)
    requires s.parts == AllKept(segments)
    requires r.reason.Truncated? && |s.parts| < MAX_RECOVERIES ==> r.clean == Strip(r.raw)
    ensures Replied(s, r, resumed).parts
         == AllKept(if r.reason.Truncated? && |segments| < MAX_RECOVERIES then segments + [r.raw]
                    else if resumed then [] else segments)
  {
    if r.reason.Truncated? && |s.parts| < MAX_RECOVERIES {
      RestoredIsKept(r);
      AllKeptSnoc(segments, r.raw);
    }
  }

  /** An iteration with a reply that counts handles this reply. */
  lemma CountedIsHandled(s: Chain, it: Iteration)
    requires s.answer.None? && it.Answer? && Counted(s, it).Some?
    ensures var t := SegmentEnds(s, it.injected);
            var u := if BlankReply(it.reply) then t.(empties := t.empties + 1) else t;
            Step(s, it) == Replied(u, Counted(s, it).value, it.resumed)
  {
  }

  lemma StepKeepsTexts(s: Chain, it: Iteration, segments: seq<string>)
    requires s.parts == AllKept(segments) && StripsAt(s, it)
    ensures Step(s, it).parts == AllKept(SegmentsOn(s, segments, it))
  {
    if s.answer.None? && it.Answer? {
      if Counted(s, it).Some? {
        CountedIsKept(s, it, segments);
      } else {
        RetriedKeepsTexts(s, it, segments);
      }
    }
  }

  /** A blank reply that is tried again leaves the texts to what input does to them. */
  lemma RetriedKeepsTexts(s: Chain, it: Iteration, segments: seq<string>)
    requires s.parts == AllKept(segments) && s.answer.None? && it.Answer? && Counted(s, it).None?
    ensures Step(s, it).parts == AllKept(if s.pending && it.injected then [] else segments)
  {
  }

  lemma CountedIsKept(s: Chain, it: Iteration, segments: seq<string>)
    requires s.parts == AllKept(segments) && StripsAt(s, it)
    requires s.answer.None? && it.Answer? && Counted(s, it).Some?
    ensures Step(s, it).parts == AllKept(SegmentsOn(s, segments, it))
  {
    CountedIsHandled(s, it);
    var t := SegmentEnds(s, it.injected);
    var u := if BlankReply(it.reply) then t.(empties := t.empties + 1) else t;
    var kept := if s.pending && it.injected then [] else segments;
    assert u.parts == AllKept(kept);
    ReplyIsKept(u, Counted(s, it).value, it.resumed, kept);
  }

  /** What the chain keeps are the truncated texts as they were received, with all-blank ones doubled. */
  lemma {:induction false} ChainIsTheSegments(its: seq<Iteration>)
    requires CleaningStrips(its)
    ensures After(its).parts == AllKept(Segments(its))
  {
    if its != [] {
      ChainIsTheSegments(its[..|its| - 1]);
      StepKeepsTexts(After(its[..|its| - 1]), its[|its| - 1], Segments(its[..|its| - 1]));
    }
  }

  /** No segment is blank without being empty. */
  predicate NoneBlank(segments: seq<string>) {
    segments == [] || ((segments[0] == "" || !IsBlank(segments[0])) && NoneBlank(segments[1..]))
  }

  /** No segment behind a visible one is blank without being empty. */
  predicate NoneBlankBehind(segments: seq<string>) {
    segments == [] || if IsBlank(segments[0]) then NoneBlankBehind(segments[1..]) else NoneBlank(segments[1..])
  }

  lemma {:induction false} AllKeptCons(first: string, rest: seq<string>)
    ensures AllKept([first] + rest) == [AsKept(first)] + AllKept(rest)
  {
    if rest == [] {
      AllKeptSnoc([], first);
      assert [first] + rest == [] + [first];
    } else {
      var init, last := rest[..|rest| - 1], rest[|rest| - 1];
      assert rest == init + [last] && [first] + rest == ([first] + init) + [last];
      AllKeptSnoc([first] + init, last);
      AllKeptSnoc(init, last);
      AllKeptCons(first, init);
    }
  }

  /** The kept texts are longer than the received ones unless none of them is blank. */
  lemma {:induction false} KeptLength(segments: seq<string>)
    ensures |Concat(AllKept(segments))| >= |Concat(segments)|
    ensures |Concat(AllKept(segments))| == |Concat(segments)| <==> NoneBlank(segments)
    ensures NoneBlank(segments) ==> AllKept(segments) == segments
  {
    if segments != [] {
      var first, rest := segments[0], segments[1..];
      assert segments == [first] + rest;
      KeptLength(rest);
      AllKeptCons(first, rest);
      assert ([AsKept(first)] + AllKept(rest))[1..] == AllKept(rest);
      assert first == "" ==> first + first == first;
    }
  }

  /** The chain holds the texts exactly as they were received if and only if none of them is all blank. */
  lemma ChainIsExactIff(its: seq<Iteration>)
    requires CleaningStrips(its)
    ensures After(its).parts == Segments(its) <==> NoneBlank(Segments(its))
  {
    ChainIsTheSegments(its);
    KeptLength(Segments(its));
  }

  /** The stripped answer is the strip of the received texts exactly if no all-blank segment stands behind a
      visible one. */
  lemma {:induction false} JoinedIsExactIff(segments: seq<string>, last: string)
    requires !IsBlank(last)
    ensures Strip(Concat(AllKept(segments)) + last) == Strip(Concat(segments) + last) <==> NoneBlankBehind(segments)
  {
    if segments != [] {
      var first, rest := segments[0], segments[1..];
      var kept := AllKept(rest);
      assert segments == [first] + rest;
      AllKeptCons(first, rest);
      assert ([AsKept(first)] + kept)[1..] == kept;
      var received, delivered := Concat(rest), Concat(kept);
      if IsBlank(first) {
        JoinedIsExactIff(rest, last);
        assert (first + first) + delivered + last == (first + first) + (delivered + last);
        assert first + received + last == first + (received + last);
        StripBehindBlank(first + first, delivered + last);
        StripBehindBlank(first, received + last);
      } else {
        StripBetween(first, delivered, last);
        StripBetween(first, received, last);
        KeptLength(rest);
      }
    }
  }

  lemma AnswerOfAReply(s: Chain, r: Reply, resumed: bool)
    requires s.answer.None? && Replied(s, r, resumed).answer.Some? && Replied(s, r, resumed).answer.value.Says?
    requires r.clean == Strip(r.raw)
    ensures !IsBlank(r.raw) && Replied(s, r, resumed).answer.value == Says(Strip(Concat(s.parts) + r.raw))
  {
    StripBlank(r.raw);
    RestoredIsKept(r);
    assert Concat([]) + r.raw == r.raw;
  }

  lemma AnswerOfAStep(s: Chain, it: Iteration)
    requires s.answer.None? && Step(s, it).answer.Some? && Step(s, it).answer.value.Says? && StripsAt(s, it)
    ensures it.Answer? && Counted(s, it).Some? && !IsBlank(Counted(s, it).value.raw)
    ensures Step(s, it).answer.value
         == Says(Strip(Concat(SegmentEnds(s, it.injected).parts) + Counted(s, it).value.raw))
  {
    var t := SegmentEnds(s, it.injected);
    CountedIsHandled(s, it);
    AnswerOfAReply(if BlankReply(it.reply) then t.(empties := t.empties + 1) else t, Counted(s, it).value, it.resumed);
  }

  /** The raw texts that an answer joins: those since the chain was last cleared. */
  function Held(its: seq<Iteration>, it: Iteration): seq<string> {
    if After(its).pending && it.injected then [] else Segments(its)
  }

  /** An answer is the strip of the kept texts and the raw last one; it is the strip of everything that was
      received exactly if no all-blank segment stands behind a visible one. */
  lemma AnswerIsTheWholeText(its: seq<Iteration>, it: Iteration)
    requires CleaningStrips(its + [it]) && After(its).answer.None? && After(its + [it]).answer.Some?
    requires After(its + [it]).answer.value.Says?
    ensures it.Answer? && Counted(After(its), it).Some?
    ensures var (answer, held, last) := (After(its + [it]).answer.value.text, Held(its, it),
                                         Counted(After(its), it).value.raw);
            && answer == Strip(Concat(AllKept(held)) + last)
            && (answer == Strip(Concat(held) + last) <==> NoneBlankBehind(held))
  {
    AfterSnoc(its, it);
    ChainIsTheSegments(its);
    AnswerOfAStep(After(its), it);
    JoinedIsExactIff(Held(its, it), Counted(After(its), it).value.raw);
  }

  // ----- what a run says, whatever it is

  /** A blank reply was tried again since the last tool work. */
  ghost predicate BlankBefore(its: seq<Iteration>) {
    exists i :: 0 <= i < |its| && its[i].Answer? && its[i].reply.reason.Stopped? && IsBlank(its[i].reply.clean)
      && forall j | i < j < |its| :: !its[j].Tools?
  }

  lemma BlankBeforeSnoc(its: seq<Iteration>, it: Iteration)
    ensures BlankBefore(its + [it]) <==> if it.Tools? then false else BlankReply(it.reply) || BlankBefore(its)
  {
    var all := its + [it];
    assert all[|its|] == it && forall i | 0 <= i < |its| :: all[i] == its[i];
    if !it.Tools? && BlankBefore(its) {
      var i :| 0 <= i < |its| && its[i].Answer? && its[i].reply.reason.Stopped? && IsBlank(its[i].reply.clean)
        && forall j | i < j < |its| :: !its[j].Tools?;
      assert all[i] == its[i];
    }
  }

  lemma SaidIsSaid(s: Chain, it: Iteration)
    requires s.answer.Some?
    ensures Step(s, it) == s
  {
  }

  lemma EmptiesStep(s: Chain, it: Iteration)
    requires s.answer.None?
    ensures Step(s, it).empties == if it.Tools? then 0 else s.empties + if BlankReply(it.reply) then 1 else 0
  {
  }

  lemma {:induction false} EmptiesIff(its: seq<Iteration>)
    requires After(its).answer.None?
    ensures After(its).empties > 0 <==> BlankBefore(its)
  {
    if its != [] {
      var init, it := its[..|its| - 1], its[|its| - 1];
      assert its == init + [it];
      if After(init).answer.Some? {
        SaidIsSaid(After(init), it);
      }
      EmptiesIff(init);
      BlankBeforeSnoc(init, it);
      EmptiesStep(After(init), it);
    }
  }

  /** The first blank reply since the last tool work is tried again; behind a later one the finalization is asked. */
  lemma BlankRetryIff(its: seq<Iteration>, it: Iteration)
    requires After(its).answer.None? && it.Answer?
    ensures var blank := it.reply.reason.Stopped? && IsBlank(it.reply.clean);
            Counted(After(its), it)
            == if !blank then Some(it.reply) else if BlankBefore(its) then Some(it.fallback) else None
  {
    EmptiesIff(its);
  }

  /** What one more iteration says, for every run without an answer so far: nothing yet, behind tools,
      a blank reply that is tried again, a truncated one of the first three, or input that came meanwhile; otherwise
      that the model failed, that no text came, or the strip of all kept texts and the raw last one. */
  lemma WhatIsSaid(its: seq<Iteration>, it: Iteration)
    requires CleaningStrips(its + [it]) && After(its).answer.None?
    ensures After(its + [it]).answer ==
              if it.Tools? || Counted(After(its), it).None? then None
              else
                var (r, held) := (Counted(After(its), it).value, Held(its, it));
                if (r.reason.Truncated? && |held| < 3) || it.resumed then None
                else if r.reason.Failed? then Some(Breaks(r.clean))
                else if IsBlank(r.clean) then Some(SaysNothing)
                else Some(Says(Strip(Concat(AllKept(held)) + r.raw)))
  {
    AfterSnoc(its, it);
    ChainIsTheSegments(its);
    if it.Answer? && Counted(After(its), it).Some? {
      var s := After(its);
      var t := SegmentEnds(s, it.injected);
      var u := if BlankReply(it.reply) then t.(empties := t.empties + 1) else t;
      CountedIsHandled(s, it);
      assert u.parts == AllKept(Held(its, it));
      ReplySays(u, Counted(s, it).value, it.resumed);
    } else if it.Answer? {
      RetriedSaysNothing(After(its), it);
    }
  }

  lemma RetriedSaysNothing(s: Chain, it: Iteration)
    requires s.answer.None? && it.Answer? && Counted(s, it).None?
    ensures Step(s, it).answer.None?
  {
  }

  lemma ReplySays(s: Chain, r: Reply, resumed: bool)
    requires s.answer.None?
    requires (r.reason.Truncated? && |s.parts| < MAX_RECOVERIES) || resumed || r.reason.Failed? || IsBlank(r.clean)
             || r.clean == Strip(r.raw)
    ensures Replied(s, r, resumed).answer ==
              if (r.reason.Truncated? && |s.parts| < 3) || resumed then None
              else if r.reason.Failed? then Some(Breaks(r.clean))
              else if IsBlank(r.clean) then Some(SaysNothing)
              else Some(Says(Strip(Concat(s.parts) + r.raw)))
  {
    if Replied(s, r, resumed).answer.Some? && Replied(s, r, resumed).answer.value.Says? {
      AnswerOfAReply(s, r, resumed);
    }
  }

  /** A run that used up its iterations: the visible kept texts come in front of the closing text, an empty line
      between them; without kept texts it is the closing text alone. */
  lemma WhatIsSaidInTheEnd(its: seq<Iteration>, terminal: string)
    requires CleaningStrips(its) && After(its).answer.None?
    ensures Segments(its) == [] ==> Ending(its, terminal) == Says(terminal)
    ensures Segments(its) != [] && !IsBlank(Concat(AllKept(Segments(its)))) && !IsBlank(terminal) ==>
              Ending(its, terminal)
              == Says(LStrip(RStrip(Concat(AllKept(Segments(its))))) + "\n\n" + RStrip(LStrip(terminal)))
  {
    ChainIsTheSegments(its);
    var kept := Concat(AllKept(Segments(its)));
    if !IsBlank(kept) && !IsBlank(terminal) {
      VisibleSides(kept);
      VisibleSides(terminal);
      StripBetween(RStrip(kept), BREAK, LStrip(terminal));
      assert RStrip(kept) + (BREAK + LStrip(terminal)) == RStrip(kept) + BREAK + LStrip(terminal);
    }
  }

  lemma VisibleSides(text: string)
    requires !IsBlank(text)
    ensures !IsBlank(RStrip(text)) && !IsBlank(LStrip(text))
  {
    DropLeftFacts(IsSpace, text);
    DropRightFacts(IsSpace, text);
  }

  lemma AfterSnoc(its: seq<Iteration>, it: Iteration)
    ensures After(its + [it]) == Step(After(its), it)
    ensures CleaningStrips(its + [it]) <==> CleaningStrips(its) && StripsAt(After(its), it)
  {
    assert (its + [it])[..|its|] == its;
  }

  // ----- what input does to the chain

  /** Input before a request clears the chain exactly if a segment is pending or there is nothing to clear. */
  lemma InputClearsTheChainIff(s: Chain)
    ensures SegmentEnds(s, true).parts == [] <==> s.pending || s.parts == []
  {
  }

  /** A chain survives input only right behind a blank reply that is tried again: then the next request starts
      with segments and none of them is pending. */
  lemma {:induction false} StaleOnlyBehindABlank(its: seq<Iteration>)
    requires var s := After(its); s.answer.None? && s.parts != [] && !s.pending
    ensures its != [] && var it := its[|its| - 1]; it.Answer? && BlankReply(it.reply)
  {
    var (init, it) := (its[..|its| - 1], its[|its| - 1]);
    var s := After(init);
    assert After(its) == Step(s, it);
  }

  const NOTHING: Reply := Reply(Stopped, "", "")
  const CUT_OFF: Iteration := Answer(false, Reply(Truncated, "Old ", "Old"), NOTHING, false)
  const BLANK: Iteration := Answer(false, NOTHING, NOTHING, false)
  const NEW_TOPIC: Iteration := Answer(true, Reply(Stopped, "New", "New"), NOTHING, false)

  lemma CutOffStep()
    ensures Step(START, CUT_OFF) == Chain(["Old "], true, 0, None)
  {
    var kept := Restored("Old", "Old ");
    assert kept == "Old " by { Stripped(); }
    assert Step(START, CUT_OFF) == Chain([] + [kept], true, 0, None);
  }

  /** A blank reply that is tried again leaves the chain and ends its pending segment. */
  lemma BlankStep(s: Chain)
    requires s.answer.None? && s.empties == 0
    ensures Step(s, BLANK) == s.(pending := false, empties := 1)
  {
  }

  /** Input that does not clear the chain is answered with the old segments in front. */
  lemma StaleChainIsPrefixed(s: Chain, r: Reply, fallback: Reply)
    requires s.answer.None? && !s.pending && s.parts != [] && r.reason.Stopped? && !IsBlank(r.clean)
    ensures Step(s, Answer(true, r, fallback, false)).answer
            == Some(Says(Strip(Concat(s.parts) + Restored(r.clean, r.raw))))
  {
  }

  lemma LeakText()
    ensures Strip(Concat(["Old "]) + Restored("New", "New")) == "Old New" && !IsBlank("New")
  {
    One("Old ");
    assert Restored("New", "New") == "New" by { Stripped(); }
    assert Concat(["Old "]) + Restored("New", "New") == "Old New";
    Stripped();
  }

  lemma One(text: string)
    ensures Concat([text]) == text
  {
    assert [text][1..] == [];
  }

  lemma LeakEnd(s: Chain)
    requires s.answer.None? && !s.pending && s.parts == ["Old "]
    ensures Step(s, NEW_TOPIC).answer == Some(Says("Old New"))
  {
    LeakText();
    StaleChainIsPrefixed(s, NEW_TOPIC.reply, NOTHING);
  }

  lemma StrippedReplies(s: Chain, it: Iteration)
    requires it.Answer? && it.reply.clean == Strip(it.reply.raw) && it.fallback.clean == Strip(it.fallback.raw)
    ensures StripsAt(s, it)
  {
  }

  lemma LeakIsStripped(s: Chain, it: Iteration)
    requires it == CUT_OFF || it == BLANK || it == NEW_TOPIC
    ensures StripsAt(s, it)
  {
    assert Strip("Old ") == "Old" && Strip("New") == "New" && Strip("") == "" by { Stripped(); }
    StrippedReplies(s, it);
  }

  /** Truncated, blank, then input and its answer: the answer to the new input starts with the old text. */
  lemma StaleSegmentLeaks()
    ensures var its := [CUT_OFF] + [BLANK] + [NEW_TOPIC];
            CleaningStrips(its) && After(its).answer == Some(Says("Old New"))
  {
    var cut, stale := Chain(["Old "], true, 0, None), Chain(["Old "], false, 1, None);
    CutOffStep();
    BlankStep(cut);
    LeakEnd(stale);
    LeakIsStripped(START, CUT_OFF);
    LeakIsStripped(cut, BLANK);
    LeakIsStripped(stale, NEW_TOPIC);
    AfterSnoc([], CUT_OFF);
    assert [] + [CUT_OFF] == [CUT_OFF];
    AfterSnoc([CUT_OFF], BLANK);
    AfterSnoc([CUT_OFF] + [BLANK], NEW_TOPIC);
  }

  lemma Stripped()
    ensures Strip("Old ") == "Old" && Strip("New") == "New" && Strip("") == "" && Strip("Old New") == "Old New"
    ensures !IsBlank("Old ") && !IsBlank("New") && IsBlank("") && !IsBlank("Old")
    ensures Restored("Old", "Old ") == "Old " && Restored("New", "New") == "New"
  {
    StripSolid("New");
    StripSolid("Old New");
    var o := "Old ";
    assert o[0] == 'O' && !IsSpace(o[0]);
    assert SkipRight(IsSpace, o, 0) == 0;
    assert LStrip(o) == o;
    assert SkipLeft(IsSpace, o, 4) == 3;
    RestoreUndoesStrip("New");
    RestoreUndoesStrip(o);
    assert "New"[0] == 'N' && "Old"[0] == 'O';
  }

  // ----- the loop

  /** A reply that counts: it is kept as a truncated segment, it is followed by more input, or it ends the run. */
  method TakeReply(held: seq<string>, reply: Reply, resumed: bool, ghost empties: nat)
    returns (parts: seq<string>, pending: bool, answer: Option<Final>)
    ensures Chain(parts, pending, empties, answer) == Replied(Chain(held, false, empties, None), reply, resumed)
  {
    parts, pending, answer := held, false, None;
    if reply.reason.Truncated? && |parts| < MAX_RECOVERIES {
      parts := parts + [Restored(reply.clean, reply.raw)];
      pending := true;
    } else if resumed {
      parts := [];
    } else if reply.reason.Failed? {
      answer := Some(Breaks(reply.clean));
    } else if IsBlank(reply.clean) {
      answer := Some(SaysNothing);
    } else if parts != [] {
      answer := Some(Says(Strip(Concat(parts) + Restored(reply.clean, reply.raw))));
    } else {
      answer := Some(Says(reply.clean));
    }
  }

  /** One iteration: what the input snapshot does, and then the reply. */
  method TakeIteration(parts: seq<string>, pending: bool, empties: nat, it: Iteration)
    returns (parts': seq<string>, pending': bool, empties': nat, answer: Option<Final>)
    ensures Chain(parts', pending', empties', answer) == Step(Chain(parts, pending, empties, None), it)
  {
    parts', pending', empties', answer := parts, pending, empties, None;
    if pending {
      pending' := false;
      if it.injected {
        parts' := [];
      }
    }
    if it.Tools? {
      empties', parts' := 0, [];
      return;
    }
    var reply := it.reply;
    if reply.reason.Stopped? && IsBlank(reply.clean) {
      empties' := empties + 1;
      if empties' < MAX_EMPTY_RETRIES {
        return;
      }
      reply := it.fallback;
    }
    parts', pending', answer := TakeReply(parts', reply, it.resumed, empties');
  }

  /** The recovery part of the runner loop: one iteration per reply, until there is an answer. */
  method RunReplies(its: seq<Iteration>, terminal: string) returns (final: Final)
    ensures final == Ending(its, terminal)
  {
    var parts: seq<string>, pending, empties := [], false, 0;
    for i := 0 to |its|
      invariant After(its[..i]) == Chain(parts, pending, empties, None)
    {
      assert its[..i + 1] == its[..i] + [its[i]];
      AfterSnoc(its[..i], its[i]);
      var answer;
      parts, pending, empties, answer := TakeIteration(parts, pending, empties, its[i]);
      if answer.Some? {
        AnswerStays(its, i + 1);
        return answer.value;
      }
    }
    assert its[..|its|] == its;
    final := if parts == [] then Says(terminal) else Says(Strip(RStrip(Concat(parts)) + (BREAK + LStrip(terminal))));
  }

  /** Nothing happens behind an answer. */
  lemma {:induction false} AnswerStays(its: seq<Iteration>, k: nat)
    requires k <= |its| && After(its[..k]).answer.Some?
    ensures After(its) == After(its[..k])
    decreases |its|
  {
    if k == |its| {
      assert its[..k] == its;
    } else {
      assert its[..|its| - 1][..k] == its[..k];
      AnswerStays(its[..|its| - 1], k);
    }
  }
}
