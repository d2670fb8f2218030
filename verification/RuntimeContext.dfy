/** Context that is appended to a user prompt for the model only, and taken off again for display
    and for merging. */
module RuntimeContext {
  import opened Text
  import opened Transcript
  import opened Selection

  datatype ContextBlock = ContextBlock(source: string, content: string)

  function Sources(blocks: seq<ContextBlock>): seq<string> {
    seq(|blocks|, i requires 0 <= i < |blocks| => blocks[i].source)
  }

  function Rendered(blocks: seq<ContextBlock>): seq<string> {
    seq(|blocks|, i requires 0 <= i < |blocks| => blocks[i].content)
  }

  function TextBlocks(texts: seq<string>): seq<Block> {
    seq(|texts|, i requires 0 <= i < |texts| => TextBlock(texts[i]))
  }

  /** Trimmed blocks in provider order, without the empty ones; `None` when a source is empty. */
  function NormalizedBlocks(blocks: seq<ContextBlock>): Option<seq<ContextBlock>> {
    NormalizedOnto([], blocks)
  }

  function NormalizedOnto(done: seq<ContextBlock>, blocks: seq<ContextBlock>): Option<seq<ContextBlock>>
    decreases |blocks|
  {
    if blocks == [] then Some(done)
    else
      var source, content := Strip(blocks[0].source), Strip(blocks[0].content);
      if source == "" then None
      else NormalizedOnto(if content == "" then done else done + [ContextBlock(source, content)], blocks[1..])
  }

  /** Normalization fails exactly when some source is blank, and leaves no empty block. */
  lemma {:induction false} NormalizedFacts(done: seq<ContextBlock>, blocks: seq<ContextBlock>)
    requires forall b | b in done :: b.source != "" && b.content != ""
    ensures var r := NormalizedOnto(done, blocks);
            && (r.None? <==> exists i :: 0 <= i < |blocks| && IsBlank(blocks[i].source))
            && (r.Some? ==> done <= r.value && forall b | b in r.value :: b.source != "" && b.content != "")
    decreases |blocks|
  {
    if blocks != [] {
      var rest := blocks[1..];
      var source, content := Strip(blocks[0].source), Strip(blocks[0].content);
      StripBlank(blocks[0].source);
      NormalizedFacts(if content == "" || source == "" then done else done + [ContextBlock(source, content)], rest);
      assert forall i | 0 <= i < |rest| :: rest[i] == blocks[i + 1];
      assert forall i | 1 <= i < |blocks| :: blocks[i] == rest[i - 1];
    }
  }

  /** `out` is the blocks at the positions `idx`, trimmed: those of the blocks with visible content. */
  ghost predicate TrimmedAt(blocks: seq<ContextBlock>, out: seq<ContextBlock>, idx: seq<nat>) {
    && Rising(idx, |blocks|) && |out| == |idx|
    && (forall i | 0 <= i < |blocks| :: i in idx <==> !IsBlank(blocks[i].content))
    && (forall k | 0 <= k < |idx| ::
          out[k] == ContextBlock(Strip(blocks[idx[k]].source), Strip(blocks[idx[k]].content)))
  }

  lemma TrimmedMore(blocks: seq<ContextBlock>, out: seq<ContextBlock>, idx: seq<nat>, b: ContextBlock)
    requires TrimmedAt(blocks, out, idx)
    ensures IsBlank(b.content) ==> TrimmedAt(blocks + [b], out, idx)
    ensures !IsBlank(b.content) ==>
              TrimmedAt(blocks + [b], out + [ContextBlock(Strip(b.source), Strip(b.content))], idx + [|blocks|])
  {
    RisingNext(idx, |blocks|);
  }

  lemma {:induction false} NormalizedBehind(seen: seq<ContextBlock>, done: seq<ContextBlock>, idx: seq<nat>,
                                            blocks: seq<ContextBlock>)
    returns (all: seq<nat>)
    requires TrimmedAt(seen, done, idx) && forall i | 0 <= i < |blocks| :: !IsBlank(blocks[i].source)
    ensures NormalizedOnto(done, blocks).Some? && TrimmedAt(seen + blocks, NormalizedOnto(done, blocks).value, all)
    decreases |blocks|
  {
    if blocks == [] {
      assert seen + blocks == seen;
      all := idx;
    } else {
      var b := blocks[0];
      StripBlank(b.source);
      StripBlank(b.content);
      TrimmedMore(seen, done, idx, b);
      assert seen + blocks == (seen + [b]) + blocks[1..];
      if IsBlank(b.content) {
        all := NormalizedBehind(seen + [b], done, idx, blocks[1..]);
      } else {
        all := NormalizedBehind(seen + [b], done + [ContextBlock(Strip(b.source), Strip(b.content))],
                                idx + [|seen|], blocks[1..]);
      }
    }
  }

  /** With a source for every block, exactly the blocks with visible content are kept, in order and trimmed. */
  lemma {:induction false} VisibleBlocksAreKept(blocks: seq<ContextBlock>) returns (idx: seq<nat>)
    requires forall i | 0 <= i < |blocks| :: !IsBlank(blocks[i].source)
    ensures NormalizedBlocks(blocks).Some? && TrimmedAt(blocks, NormalizedBlocks(blocks).value, idx)
  {
    idx := NormalizedBehind([], [], [], blocks);
    assert [] + blocks == blocks;
  }

  method NormalizeRuntimeContextBlocks(values: seq<ContextBlock>) returns (r: Option<seq<ContextBlock>>)
    ensures r == NormalizedBlocks(values)
  {
    var blocks: seq<ContextBlock> := [];
    assert values[0..] == values;
    for i := 0 to |values|
      invariant NormalizedOnto(blocks, values[i..]) == NormalizedBlocks(values)
    {
      assert values[i..][1..] == values[i + 1..];
      var source, content := Strip(values[i].source), Strip(values[i].content);
      if source == "" {
        return None;
      }
      if content != "" {
        blocks := blocks + [ContextBlock(source, content)];
      }
    }
    r := Some(blocks);
  }

  // ----- append, detach, reattach

  function Append(content: Content, blocks: seq<ContextBlock>): (Content, Option<Marker>) {
    if blocks == [] then (content, None)
    else if content.Blocks? then
      var context := TextBlocks(Rendered(blocks));
      (Blocks(content.blocks + context), Some(Marker(1, Sources(blocks), None, Some(context))))
    else
      var suffix := Join(Rendered(blocks));
      (Str(WithSuffix(VisibleText(content), suffix)), Some(Marker(1, Sources(blocks), Some(suffix), None)))
  }

  function VisibleText(content: Content): string
    requires !content.Blocks?
  {
    if content.NoContent? then "" else content.text
  }

  function WithSuffix(text: string, suffix: string): string {
    if text == "" then suffix else text + BREAK + suffix
  }

  /** The visible content, the sources and the context blocks of one row. */
  datatype Detached = Detached(content: Content, sources: seq<string>, blocks: seq<Block>)

  function NonEmpty(sources: seq<string>): seq<string> {
    if sources == [] then []
    else (if sources[0] == "" then [] else [sources[0]]) + NonEmpty(sources[1..])
  }

  function WithoutSuffix(text: string, suffix: string): Option<string> {
    if text == suffix then Some("")
    else if EndsWith(text, BREAK + suffix) then Some(text[..|text| - |BREAK + suffix|])
    else None
  }

  function Detach(content: Content, marker: Marker): Option<Detached> {
    if marker.version != 1 then None
    else if content.Str? && marker.suffix.Some? && marker.suffix.value != "" then
      var clean := WithoutSuffix(content.text, marker.suffix.value);
      if clean.None? then None
      else Some(Detached(Str(clean.value), NonEmpty(marker.sources), [TextBlock(marker.suffix.value)]))
    else if content.Blocks? && marker.blocks.Some? && marker.blocks.value != [] then
      var bs, expected := content.blocks, marker.blocks.value;
      if |expected| <= |bs| && bs[|bs| - |expected|..] == expected
      then Some(Detached(Blocks(bs[..|bs| - |expected|]), NonEmpty(marker.sources), expected))
      else None
    else None
  }

  predicate AllText(blocks: seq<Block>) {
    forall b | b in blocks :: b.TextBlock?
  }

  function Texts(blocks: seq<Block>): seq<string>
    requires AllText(blocks)
  {
    seq(|blocks|, i requires 0 <= i < |blocks| => blocks[i].text)
  }

  function Reattach(content: Content, sources: seq<string>, blocks: seq<Block>): (Content, Marker) {
    if content.Str? && AllText(blocks) then
      var suffix := Join(Texts(blocks));
      (Str(WithSuffix(content.text, suffix)), Marker(1, sources, Some(suffix), None))
    else
      var visible := match content
        case Blocks(bs) => bs
        case NoContent => []
        case Str(s) => [TextBlock(s)];
      (Blocks(visible + blocks), Marker(1, sources, None, Some(blocks)))
  }

  /** The content that a user sees of a stored row. */
  function PublicContent(content: Content, marker: Option<Marker>): Content {
    if marker.None? || marker.value.version != 1 then content
    else
      var m := marker.value;
      if content.Str? && m.suffix.Some? && m.suffix.value != "" then
        if content.text == m.suffix.value then Str("")
        else if EndsWith(content.text, BREAK + m.suffix.value)
        then Str(content.text[..|content.text| - (|m.suffix.value| + 2)])
        else content
      else if content.Blocks? && m.blocks.Some? && m.blocks.value != [] then
        var bs, count := content.blocks, |m.blocks.value|;
        if count <= |bs| && bs[|bs| - count..] == m.blocks.value then Blocks(bs[..|bs| - count]) else content
      else content
  }

  // ----- round trips

  /** What the user typed, as it is shown: a missing content is shown as an empty text. */
  function Visible(content: Content): Content {
    if content.NoContent? then Str("") else content
  }

  lemma SuffixRoundTrip(text: string, suffix: string)
    ensures WithoutSuffix(WithSuffix(text, suffix), suffix) == Some(text)
  {
    if text != "" {
      var whole := WithSuffix(text, suffix);
      assert whole == text + (BREAK + suffix);
      assert |whole| > |suffix|;
      assert whole[|whole| - |BREAK + suffix|..] == BREAK + suffix;
      assert whole[..|whole| - |BREAK + suffix|] == text;
    }
  }

  /** What the model reads of a text with appended context: the text, an empty line, and the context; or the context
      alone behind no text. A list gets one text block more for each context block. */
  lemma AppendReads(content: Content, blocks: seq<ContextBlock>)
    requires blocks != []
    ensures var (merged, context) := (Append(content, blocks).0, Join(Rendered(blocks)));
            match content
            case Blocks(bs) =>
              && merged.Blocks? && |merged.blocks| == |bs| + |blocks| && merged.blocks[..|bs|] == bs
              && forall i | 0 <= i < |blocks| :: merged.blocks[|bs| + i] == TextBlock(blocks[i].content)
            case Str(text) => merged == Str(if text == "" then context else text + "\n\n" + context)
            case NoContent => merged == Str(context)
  {
  }

  /** Appending and detaching gives the visible content back, with the context and its sources,
      exactly when some context text is not empty (always, for a list content). */
  lemma AppendThenDetach(content: Content, blocks: seq<ContextBlock>)
    requires blocks != []
    ensures Append(content, blocks).1.Some?
    ensures var (merged, marker) := Append(content, blocks);
            var d := Detach(merged, marker.value);
            if content.Blocks? then
              d == Some(Detached(content, NonEmpty(Sources(blocks)), TextBlocks(Rendered(blocks))))
            else if Join(Rendered(blocks)) != "" then
              d == Some(Detached(Visible(content), NonEmpty(Sources(blocks)), [TextBlock(Join(Rendered(blocks)))]))
            else d == None
  {
    if content.Blocks? {
      var context := TextBlocks(Rendered(blocks));
      assert (content.blocks + context)[|content.blocks|..] == context;
      assert (content.blocks + context)[..|content.blocks|] == content.blocks;
    } else {
      SuffixRoundTrip(VisibleText(content), Join(Rendered(blocks)));
    }
  }

  /** Display removes an appended context exactly, unless the whole context is the empty text and
      the user typed something. */
  lemma AppendThenPublic(content: Content, blocks: seq<ContextBlock>)
    ensures var (merged, marker) := Append(content, blocks);
            PublicContent(merged, marker) == (if blocks == [] then content else Visible(content))
            <==> (blocks == [] || content.Blocks? || VisibleText(content) == "" || Join(Rendered(blocks)) != "")
  {
    if blocks != [] {
      AppendThenDetach(content, blocks);
    }
  }

  /** Blocks that went through normalization always leave a context that detaches. */
  lemma NormalizedContext(blocks: seq<ContextBlock>)
    requires blocks != [] && forall b | b in blocks :: b.content != ""
    ensures Join(Rendered(blocks)) != ""
  {
    assert Rendered(blocks)[0] == blocks[0].content;
    assert blocks[0] in blocks;
  }

  /** A marker that does not match leaves the row as it is stored. */
  lemma PublicKeepsForeign(content: Content, marker: Marker)
    ensures PublicContent(content, Some(marker))
         == if Detach(content, marker).Some? then Detach(content, marker).value.content else content
  {
  }

  /** Reattached context detaches again: as the same blocks from a list, as one joined text from a text. */
  lemma ReattachThenDetach(content: Content, sources: seq<string>, blocks: seq<Block>)
    requires blocks != [] && NonEmpty(sources) == sources
    requires content.Blocks? || (content.Str? && AllText(blocks) && Join(Texts(blocks)) != "")
    ensures var (merged, marker) := Reattach(content, sources, blocks);
            Detach(merged, marker) == Some(Detached(content, sources,
              if content.Str? then [TextBlock(Join(Texts(blocks)))] else blocks))
  {
    if content.Str? {
      SuffixRoundTrip(content.text, Join(Texts(blocks)));
    } else {
      assert (content.blocks + blocks)[|content.blocks|..] == blocks;
      assert (content.blocks + blocks)[..|content.blocks|] == content.blocks;
    }
  }

  /** The sources that are not empty, in order. */
  lemma {:induction false} SourcesKept(sources: seq<string>) returns (idx: seq<nat>)
    ensures Rising(idx, |sources|) && |NonEmpty(sources)| == |idx|
    ensures forall i | 0 <= i < |sources| :: i in idx <==> sources[i] != ""
    ensures forall k | 0 <= k < |idx| :: NonEmpty(sources)[k] == sources[idx[k]]
  {
    if sources == [] {
      idx := [];
    } else {
      var init, last := sources[..|sources| - 1], sources[|sources| - 1];
      idx := SourcesKept(init);
      assert sources == init + [last] && [last][1..] == [];
      NonEmptySplit(init, [last]);
      RisingNext(idx, |init|);
      if last != "" {
        idx := idx + [|init|];
      }
    }
  }

  lemma {:induction false} NonEmptyFixed(sources: seq<string>)
    ensures NonEmpty(NonEmpty(sources)) == NonEmpty(sources)
  {
    if sources != [] {
      NonEmptyFixed(sources[1..]);
      NonEmptySplit(if sources[0] == "" then [] else [sources[0]], NonEmpty(sources[1..]));
    }
  }

  lemma {:induction false} NonEmptySplit(a: seq<string>, b: seq<string>)
    ensures NonEmpty(a + b) == NonEmpty(a) + NonEmpty(b)
  {
    if a == [] {
      assert a + b == b;
    } else {
      assert (a + b)[1..] == a[1..] + b;
      NonEmptySplit(a[1..], b);
    }
  }
}
