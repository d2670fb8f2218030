/** Stream segments and source attribution of one turn: every stream event carries the id of its segment and
    the sources to which the text of the segment so far can be attributed. */
module StreamSegments {
  import opened Transcript
  import opened Text

  datatype Source = Source(provider: string, model: string)

  /** The events of a turn. `Responding` tells from which source the response comes and, once known, what its
      visible text is; `Chunk` is a piece of streamed text; `End` closes a segment unless the next text is to be
      merged. */
  datatype Event =
    | Responding(source: Option<Source>, visible: Option<string>)
    | Chunk(text: string)
    | End(merge: bool)
    | Other

  predicate Streamed(e: Event) {
    e.Chunk? || e.End?
  }

  predicate Closes(e: Event) {
    e.End? && !e.merge
  }

  predicate Contains(text: string, part: string) {
    part <= text || (text != "" && Contains(text[1..], part))
  }

  // ----- what a history of events says

  /** The number of the segment that is open or comes next. */
  function Segment(h: seq<Event>): nat {
    if h == [] then 0
    else Segment(h[..|h| - 1]) + if Closes(h[|h| - 1]) then 1 else 0
  }

  /** Whether streamed text waits for an end. */
  predicate Open(h: seq<Event>) {
    h != [] && var e := h[|h| - 1];
      (if e.Chunk? then true else if e.End? then e.merge else Open(h[..|h| - 1]))
  }

  /** The last announced source. */
  function Announced(h: seq<Event>): Option<Event> {
    if h == [] then None
    else if h[|h| - 1].Responding? then Some(h[|h| - 1]) else Announced(h[..|h| - 1])
  }

  /** The source of a text that comes after `h`: the announced one, if the text belongs to the announced response. */
  function Attribution(h: seq<Event>, text: string): Option<Source> {
    match Announced(h)
    case Some(Responding(source, visible)) =>
      if visible.Some? && !Contains(visible.value, Strip(text)) then None else source
    case _ => None
  }

  /** The attributions of the non-empty texts of the current segment. */
  function Attributed(h: seq<Event>): seq<Option<Source>> {
    if h == [] then []
    else
      var (init, e) := (h[..|h| - 1], h[|h| - 1]);
      if Closes(e) then []
      else if e.Chunk? && e.text != "" then Attributed(init) + [Attribution(init, e.text)]
      else Attributed(init)
  }

  /** The known sources among some attributions, each once, in the order in which they were first seen. */
  function Known(all: seq<Option<Source>>): seq<Source> {
    if all == [] then []
    else
      var (before, a) := (Known(all[..|all| - 1]), all[|all| - 1]);
      if a.Some? && a.value !in before then before + [a.value] else before
  }

  function Listed(all: seq<Option<Source>>): seq<Source> {
    if None in all then [] else Known(all)
  }

  /** What the channel gets of a stream event: its segment and, if sources were announced, their list. */
  datatype Published = Published(segment: nat, sources: Option<seq<Source>>)

  function Publication(h: seq<Event>, e: Event): Published {
    var all := if Closes(e) then Attributed(h) else Attributed(h + [e]);
    Published(Segment(h), if Announced(h).Some? then Some(Listed(all)) else None)
  }

  lemma Snoc(h: seq<Event>, e: Event)
    ensures Segment(h + [e]) == Segment(h) + (if Closes(e) then 1 else 0)
    ensures Open(h + [e]) == if e.Chunk? then true else if e.End? then e.merge else Open(h)
    ensures Announced(h + [e]) == if e.Responding? then Some(e) else Announced(h)
    ensures Attributed(h + [e])
         == if Closes(e) then []
            else if e.Chunk? && e.text != "" then Attributed(h) + [Attribution(h, e.text)]
            else Attributed(h)
  {
    assert (h + [e])[..|h|] == h;
  }

  lemma KnownSnoc(all: seq<Option<Source>>, a: Option<Source>)
    ensures Known(all + [a]) == if a.Some? && a.value !in Known(all) then Known(all) + [a.value] else Known(all)
  {
    assert (all + [a])[..|all|] == all;
  }

  // ----- segment ids

  predicate NoneCloses(h: seq<Event>, i: nat, j: nat)
    requires i <= j <= |h|
  {
    forall k :: i <= k < j ==> !Closes(h[k])
  }

  /** Two points of a history lie in one segment exactly when no end without merging stands between them; ids
      never go back, so that an id that was left is never used again. */
  lemma {:induction false} OneIdPerSegment(h: seq<Event>, i: nat, j: nat)
    requires i <= j <= |h|
    ensures Segment(h[..i]) <= Segment(h[..j])
    ensures Segment(h[..i]) == Segment(h[..j]) <==> NoneCloses(h, i, j)
    decreases j
  {
    if i < j {
      OneIdPerSegment(h, i, j - 1);
      assert h[..j][..j - 1] == h[..j - 1];
      assert NoneCloses(h, i, j) <==> NoneCloses(h, i, j - 1) && !Closes(h[j - 1]);
    } else {
      assert h[..i] == h[..j];
    }
  }

  // ----- sources

  predicate Distinct(s: seq<Source>) {
    s == [] || (s[|s| - 1] !in s[..|s| - 1] && Distinct(s[..|s| - 1]))
  }

  /** The list holds exactly the known sources, each once. */
  lemma {:induction false} KnownOnce(all: seq<Option<Source>>, s: Source)
    ensures Distinct(Known(all)) && (s in Known(all) <==> Some(s) in all)
  {
    if all != [] {
      var init, a := all[..|all| - 1], all[|all| - 1];
      KnownOnce(init, s);
      if a.Some? {
        assert (Known(init) + [a.value])[..|Known(init)|] == Known(init);
      }
      assert all == init + [a];
    }
  }

  /** In first-seen order: what is listed for the first attributions is the front of what is listed for all. */
  lemma {:induction false} KnownInFirstSeenOrder(all: seq<Option<Source>>, k: nat)
    requires k <= |all|
    ensures Known(all[..k]) <= Known(all)
  {
    if k == |all| {
      assert all[..k] == all;
    } else {
      KnownInFirstSeenOrder(all[..|all| - 1], k);
      assert all[..|all| - 1][..k] == all[..k];
    }
  }

  /** Every non-empty text of the current segment counts with the source that it had when it came. */
  lemma {:induction false} EveryTextIsAttributed(h: seq<Event>, k: nat)
    requires k < |h| && h[k].Chunk? && h[k].text != "" && Segment(h[..k]) == Segment(h)
    ensures Attribution(h[..k], h[k].text) in Attributed(h)
    decreases |h|
  {
    var n := |h| - 1;
    if k < n {
      SegmentBetween(h, k);
      assert h[..n][..k] == h[..k] && h[..n][k] == h[k];
      EveryTextIsAttributed(h[..n], k);
    }
  }

  lemma SegmentBetween(h: seq<Event>, k: nat)
    requires k < |h| && Segment(h[..k]) == Segment(h)
    ensures Segment(h[..|h| - 1]) == Segment(h) && !Closes(h[|h| - 1])
  {
    OneIdPerSegment(h, k, |h| - 1);
  }

  /** A published list that is not empty says that every non-empty text of the segment so far had a known
      source, and names that source; a text without one makes the list empty. */
  lemma ListedOnlyIfKnown(h: seq<Event>, e: Event, k: nat)
    requires Streamed(e) && k < |h| && h[k].Chunk? && h[k].text != "" && Segment(h[..k]) == Segment(h)
    ensures var list := Publication(h, e).sources;
            && (list.Some? && list.value != [] ==> Attribution(h[..k], h[k].text).Some?)
            && (list.Some? && list.value != [] ==> Attribution(h[..k], h[k].text).value in list.value)
            && (list.Some? ==> Distinct(list.value))
  {
    var all := if Closes(e) then Attributed(h) else Attributed(h + [e]);
    var a := Attribution(h[..k], h[k].text);
    EveryTextIsAttributed(h, k);
    Snoc(h, e);
    assert a in all;
    if a.Some? {
      KnownOnce(all, a.value);
    } else {
      DistinctKnown(all);
    }
  }

  lemma DistinctKnown(all: seq<Option<Source>>)
    ensures Distinct(Known(all))
  {
    KnownOnce(all, Source("", ""));
  }

  /** The text that is published counts as well. */
  lemma OwnTextIsListed(h: seq<Event>, text: string)
    requires text != ""
    ensures var list := Publication(h, Chunk(text)).sources;
            list.Some? && list.value != [] ==> Attribution(h, text).Some? && Attribution(h, text).value in list.value
  {
    var a := Attribution(h, text);
    Snoc(h, Chunk(text));
    assert a in Attributed(h) + [a];
    if a.Some? {
      KnownOnce(Attributed(h) + [a], a.value);
    }
  }

  // ----- the whole list, from the events

  /** Event `k` is a text of the segment that the history is in: no end closes behind it. */
  ghost predicate TextOfSegment(h: seq<Event>, k: nat)
    requires k < |h|
  {
    h[k].Chunk? && h[k].text != "" && forall j | k < j < |h| :: !(h[j].End? && !h[j].merge)
  }

  /** The last announcement before event `k` names the source, and its visible text has the text of the event if it
      is known. */
  ghost predicate ComesFrom(h: seq<Event>, k: nat, s: Source)
    requires k < |h| && h[k].Chunk?
  {
    exists r :: 0 <= r < k && h[r].Responding? && (forall j | r < j < k :: !h[j].Responding?)
      && h[r].source == Some(s) && (h[r].visible.Some? ==> Contains(h[r].visible.value, Strip(h[k].text)))
  }

  lemma {:induction false} LastAnnounced(h: seq<Event>) returns (r: nat)
    requires exists i :: 0 <= i < |h| && h[i].Responding?
    ensures r < |h| && h[r].Responding? && Announced(h) == Some(h[r]) && forall j | r < j < |h| :: !h[j].Responding?
  {
    var n := |h| - 1;
    if h[n].Responding? {
      r := n;
    } else {
      var i :| 0 <= i < |h| && h[i].Responding?;
      assert h[..n][i] == h[i];
      r := LastAnnounced(h[..n]);
    }
  }

  lemma {:induction false} NothingAnnounced(h: seq<Event>)
    requires forall i | 0 <= i < |h| :: !h[i].Responding?
    ensures Announced(h).None?
  {
    if h != [] {
      NothingAnnounced(h[..|h| - 1]);
    }
  }

  lemma AnnouncedIff(h: seq<Event>)
    ensures Announced(h).Some? <==> exists i :: 0 <= i < |h| && h[i].Responding?
  {
    if i :| 0 <= i < |h| && h[i].Responding? {
      var r := LastAnnounced(h);
    } else {
      NothingAnnounced(h);
    }
  }

  lemma {:induction false} SourceOfText(h: seq<Event>, k: nat, s: Source)
    requires k < |h| && h[k].Chunk?
    ensures Attribution(h[..k], h[k].text) == Some(s) <==> ComesFrom(h, k, s)
  {
    if i :| 0 <= i < k && h[i].Responding? {
      assert h[..k][i] == h[i];
      var r := LastAnnounced(h[..k]);
      assert h[..k][r] == h[r];
      assert forall j | r < j < k :: h[..k][j] == h[j];
    } else {
      NothingAnnounced(h[..k]);
    }
  }

  lemma TextStays(h: seq<Event>, e: Event, k: nat)
    requires k < |h| && !Closes(e)
    ensures TextOfSegment(h + [e], k) <==> TextOfSegment(h, k)
  {
    var g := h + [e];
    assert g[k] == h[k] && g[|h|] == e && forall j | k < j < |h| :: g[j] == h[j];
  }

  /** The attributions are those of the texts of the segment. */
  lemma {:induction false} AttributedIff(h: seq<Event>, a: Option<Source>)
    ensures a in Attributed(h) <==>
              exists k :: 0 <= k < |h| && TextOfSegment(h, k) && Attribution(h[..k], h[k].text) == a
  {
    if h != [] {
      var init, e := h[..|h| - 1], h[|h| - 1];
      assert h == init + [e];
      Snoc(init, e);
      AttributedIff(init, a);
      if Closes(e) {
        assert forall k | 0 <= k < |h| :: !TextOfSegment(h, k);
      } else {
        AttributedOnward(init, e, a);
      }
    }
  }

  lemma AttributedOnward(init: seq<Event>, e: Event, a: Option<Source>)
    requires !Closes(e)
    ensures var h := init + [e];
            (exists k :: 0 <= k < |h| && TextOfSegment(h, k) && Attribution(h[..k], h[k].text) == a)
            <==> (exists k :: 0 <= k < |init| && TextOfSegment(init, k) && Attribution(init[..k], init[k].text) == a)
                 || (e.Chunk? && e.text != "" && Attribution(init, e.text) == a)
  {
    var h := init + [e];
    if k :| 0 <= k < |h| && TextOfSegment(h, k) && Attribution(h[..k], h[k].text) == a {
      if k < |init| {
        TextStays(init, e, k);
        assert h[..k] == init[..k] && h[k] == init[k];
      } else {
        assert h[..k] == init;
      }
    }
    if k :| 0 <= k < |init| && TextOfSegment(init, k) && Attribution(init[..k], init[k].text) == a {
      TextStays(init, e, k);
      assert h[..k] == init[..k] && h[k] == init[k];
    }
    if e.Chunk? && e.text != "" && Attribution(init, e.text) == a {
      assert h[..|init|] == init && TextOfSegment(h, |init|);
    }
  }

  /** Event `k` is the last stream event, and it leaves the stream open: a text, or an end that merges. */
  ghost predicate OpenSince(h: seq<Event>, k: nat) {
    k < |h| && (h[k].Chunk? || (h[k].End? && h[k].merge)) && forall j | k < j < |h| :: !h[j].Chunk? && !h[j].End?
  }

  lemma OpenSinceSnoc(h: seq<Event>, e: Event, k: nat)
    ensures k < |h| ==> (OpenSince(h + [e], k) <==> OpenSince(h, k) && !e.Chunk? && !e.End?)
    ensures OpenSince(h + [e], |h|) <==> e.Chunk? || (e.End? && e.merge)
  {
    var g := h + [e];
    assert g[|h|] == e && forall j | 0 <= j < |h| :: g[j] == h[j];
  }

  /** A stream is open exactly if the last stream event left it open. */
  lemma {:induction false} OpenIff(h: seq<Event>)
    ensures Open(h) <==> exists k :: OpenSince(h, k)
  {
    if h != [] {
      var init, e := h[..|h| - 1], h[|h| - 1];
      assert h == init + [e];
      OpenIff(init);
      Snoc(init, e);
      OpenSinceSnoc(init, e, 0);
      if k :| OpenSince(init, k) {
        OpenSinceSnoc(init, e, k);
      }
      if k :| OpenSince(h, k) {
        OpenSinceSnoc(init, e, k);
      }
    }
  }

  /** The events whose texts count for a published list: with the published text itself. */
  function Counting(h: seq<Event>, e: Event): seq<Event> {
    if e.Chunk? then h + [e] else h
  }

  /** What is published of any stream event: a list exactly if a source was announced; and the list names exactly the
      sources of the non-empty texts of the segment, if each of them has one, and nothing otherwise. */
  lemma {:induction false} ListedIff(h: seq<Event>, e: Event, s: Source)
    requires Streamed(e)
    ensures var (list, g) := (Publication(h, e).sources, Counting(h, e));
            && (list.Some? <==> exists r :: 0 <= r < |h| && h[r].Responding?)
            && (list.Some? ==>
                 (s in list.value <==>
                   && (exists k :: 0 <= k < |g| && TextOfSegment(g, k) && ComesFrom(g, k, s))
                   && forall k | 0 <= k < |g| && TextOfSegment(g, k) :: exists t :: ComesFrom(g, k, t)))
  {
    var g := Counting(h, e);
    var all := Attributed(g);
    AnnouncedIff(h);
    CountedTexts(h, e);
    KnownOnce(all, s);
    SomeText(g, s);
    UnknownText(g);
  }

  lemma CountedTexts(h: seq<Event>, e: Event)
    requires Streamed(e)
    ensures Attributed(Counting(h, e)) == if Closes(e) then Attributed(h) else Attributed(h + [e])
  {
    Snoc(h, e);
  }

  lemma {:induction false} SomeText(g: seq<Event>, s: Source)
    ensures Some(s) in Attributed(g) <==> exists k :: 0 <= k < |g| && TextOfSegment(g, k) && ComesFrom(g, k, s)
  {
    AttributedIff(g, Some(s));
    forall k | 0 <= k < |g| && TextOfSegment(g, k)
      ensures Attribution(g[..k], g[k].text) == Some(s) <==> ComesFrom(g, k, s)
    {
      SourceOfText(g, k, s);
    }
  }

  lemma {:induction false} UnknownText(g: seq<Event>)
    ensures None in Attributed(g)
       <==> !forall k | 0 <= k < |g| && TextOfSegment(g, k) :: exists t :: ComesFrom(g, k, t)
  {
    AttributedIff(g, None);
    forall k | 0 <= k < |g| && TextOfSegment(g, k)
      ensures Attribution(g[..k], g[k].text) == None <==> !exists t :: ComesFrom(g, k, t)
    {
      var a := Attribution(g[..k], g[k].text);
      if a.Some? {
        SourceOfText(g, k, a.value);
      } else if t :| ComesFrom(g, k, t) {
        SourceOfText(g, k, t);
      }
    }
  }

  // ----- the state of a turn

  class TurnDelivery {
    const streaming: bool
    const acceptsStream: bool
    const acceptsSources: bool
    var segment: nat
    var open: bool
    var sourceSeen: bool
    var source: Option<Source>
    var visible: Option<string>
    var sources: seq<Source>
    var sourceUnknown: bool
    ghost var history: seq<Event>

    /** The fields are a function of the history of the events that count. */
    ghost predicate Valid()
      reads this
    {
      && segment == Segment(history) && open == Open(history)
      && sourceSeen == Announced(history).Some?
      && (sourceSeen ==> Announced(history) == Some(Responding(source, visible)))
      && (!sourceSeen ==> source.None? && visible.None?)
      && sources == Known(Attributed(history)) && sourceUnknown == (None in Attributed(history))
    }

    constructor (streaming: bool, acceptsStream: bool, acceptsSources: bool)
      ensures Valid() && history == []
      ensures this.streaming == streaming && this.acceptsStream == acceptsStream
              && this.acceptsSources == acceptsSources
    {
      this.streaming, this.acceptsStream, this.acceptsSources := streaming, acceptsStream, acceptsSources;
      segment, open, sourceSeen, source, visible := 0, false, false, None, None;
      sources, sourceUnknown, history := [], false, [];
    }

    method PublishEvent(e: Event) returns (out: Option<Published>)
      requires Valid()
      modifies this
      ensures Valid()
      ensures history == if Streamed(e) && !streaming then old(history) else old(history) + [e]
      ensures out == if !Streamed(e) || !streaming || !acceptsStream then None
                     else Some(Sent(Publication(old(history), e)))
    {
      out := None;
      if e.Responding? {
        Announce(e.source, e.visible);
      } else if e.Other? {
        Skip(e);
      } else if streaming {
        if e.Chunk? {
          out := PublishChunk(e.text);
        } else {
          out := PublishEnd(e.merge);
        }
      }
    }

    /** An event of another kind is passed on and changes nothing here. */
    method Skip(e: Event)
      requires Valid() && e.Other?
      modifies this`history
      ensures Valid() && history == old(history) + [e]
    {
      Snoc(history, e);
      history := history + [e];
    }

    method Announce(s: Option<Source>, v: Option<string>)
      requires Valid()
      modifies this
      ensures Valid() && history == old(history) + [Responding(s, v)]
    {
      Snoc(history, Responding(s, v));
      sourceSeen, source, visible := true, s, v;
      history := history + [Responding(s, v)];
    }

    method PublishChunk(text: string) returns (out: Option<Published>)
      requires Valid()
      modifies this
      ensures Valid() && history == old(history) + [Chunk(text)]
      ensures out == if acceptsStream then Some(Sent(Publication(old(history), Chunk(text)))) else None
    {
      NoteText(text);
      out := Publish();
      OpenBehind(text);
    }

    /** Attribute a text that is not empty. */
    method NoteText(text: string)
      requires Valid()
      modifies this`sources, this`sourceUnknown
      ensures sources == Known(Attributed(history + [Chunk(text)]))
      ensures sourceUnknown == (None in Attributed(history + [Chunk(text)]))
    {
      Snoc(history, Chunk(text));
      if text != "" {
        NoteSource(text);
      }
    }

    /** The stream is open behind a text. */
    method OpenBehind(text: string)
      requires segment == Segment(history)
      requires sourceSeen == Announced(history).Some? && (!sourceSeen ==> source.None? && visible.None?)
      requires sourceSeen ==> Announced(history) == Some(Responding(source, visible))
      requires sources == Known(Attributed(history + [Chunk(text)]))
      requires sourceUnknown == (None in Attributed(history + [Chunk(text)]))
      modifies this`open, this`history
      ensures Valid() && history == old(history) + [Chunk(text)]
    {
      Snoc(history, Chunk(text));
      open := true;
      history := history + [Chunk(text)];
    }

    method PublishEnd(merge: bool) returns (out: Option<Published>)
      requires Valid()
      modifies this
      ensures Valid() && history == old(history) + [End(merge)]
      ensures out == if acceptsStream then Some(Sent(Publication(old(history), End(merge)))) else None
    {
      Snoc(history, End(merge));
      out := Publish();
      open := merge;
      if !merge {
        segment := segment + 1;
        sources := [];
        sourceUnknown := false;
      }
      history := history + [End(merge)];
    }

    /** Without a subscriber for sources the list is left out. */
    function Sent(p: Published): Published {
      if acceptsSources then p else p.(sources := None)
    }

    /** A non-empty text is attributed to the announced source, or to none. */
    method NoteSource(text: string)
      requires Valid()
      modifies this`sources, this`sourceUnknown
      ensures sources == Known(Attributed(history) + [Attribution(history, text)])
      ensures sourceUnknown == (None in Attributed(history) + [Attribution(history, text)])
    {
      var s := source;
      if visible.Some? && !Contains(visible.value, Strip(text)) {
        s := None;
      }
      KnownSnoc(Attributed(history), s);
      if s.None? {
        sourceUnknown := true;
      }
      if s.Some? && s.value !in sources {
        sources := sources + [s.value];
      }
    }

    method Publish() returns (out: Option<Published>)
      ensures out == if !acceptsStream then None
                     else if !sourceSeen || !acceptsSources then Some(Published(segment, None))
                     else Some(Published(segment, Some(if sourceUnknown then [] else sources)))
    {
      if !acceptsStream {
        return None;
      }
      var list := None;
      if sourceSeen && acceptsSources {
        list := Some(if sourceUnknown then [] else sources);
      }
      return Some(Published(segment, list));
    }

    /** An interrupted stream is closed under the id of its text; nothing happens when none is open. */
    method AbortStream() returns (out: Option<Published>)
      requires Valid()
      modifies this
      ensures Valid() && (streaming ==> !Open(history))
      ensures !old(open) ==> history == old(history) && out == None
      ensures old(open) && streaming ==> history == old(history) + [End(false)]
      ensures old(open) && streaming && acceptsStream ==> out.Some? && out.value.segment == Segment(old(history))
    {
      out := None;
      if open {
        Snoc(history, End(false));
        out := PublishEvent(End(false));
      }
    }
  }
}
