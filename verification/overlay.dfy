/** What `App::render_content` (src/app.rs:139-157) draws: the content lines
    with the selected link restyled. The walk counts link-coloured spans in
    document order; the one whose count equals the selection is highlighted. */
module Overlay {
  import opened Types
  import opened Convert

  /** The selected link's look: yellow background, black foreground, bold on
      top of the span's own modifiers. */
  function Highlight(s: Span): (h: Span)
    ensures h.content == s.content
    ensures h.style.fg == Some(Black) && h.style.bg == Some(Yellow) && h.style.mods == s.style.mods + {Bold}
    ensures !IsLinkSpan(h)
  {
    s.(style := AddModifier(WithFg(WithBg(s.style, Yellow), Black), Bold))
  }

  /** A span as drawn when `before` link-coloured spans precede it. */
  function RenderSpan(s: Span, before: nat, selected: nat): Span {
    if IsLinkSpan(s) && before == selected then Highlight(s) else s
  }

  /** `spans` as drawn when `start` link-coloured spans precede them: as
      many spans as there are in `spans`. */
  function RenderSpans(spans: seq<Span>, start: nat, selected: nat): (r: seq<Span>)
    ensures |r| == |spans|
  {
    if spans == [] then []
    else
      var init := spans[..|spans| - 1];
      RenderSpans(init, start, selected) + [RenderSpan(spans[|spans| - 1], start + CountLinks(init), selected)]
  }

  /** The content pane as drawn: as many lines as the content, each with as
      many spans as the content line. */
  function RenderLines(lines: seq<Line>, selected: nat): (r: seq<Line>)
    ensures |r| == |lines|
    ensures forall j :: 0 <= j < |r| ==> |r[j]| == |lines[j]|
  {
    if lines == [] then []
    else
      var init := lines[..|lines| - 1];
      RenderLines(init, selected) + [RenderSpans(lines[|lines| - 1], CountLinks(Flatten(init)), selected)]
  }

  /** Span `i` is drawn according to the number of link-coloured spans before it. */
  lemma {:induction false} RenderSpansAt(spans: seq<Span>, start: nat, selected: nat, i: nat)
    requires i < |spans|
    ensures RenderSpans(spans, start, selected)[i] == RenderSpan(spans[i], start + CountLinks(spans[..i]), selected)
    decreases |spans|
  {
    var n := |spans| - 1;
    if i < n {
      RenderSpansAt(spans[..n], start, selected, i);
      assert spans[..n][..i] == spans[..i];
    }
  }

  /** Drawing changes no text: every drawn span has the text of its span. */
  lemma RenderKeepsText(spans: seq<Span>, start: nat, selected: nat)
    ensures forall i :: 0 <= i < |spans| ==> RenderSpans(spans, start, selected)[i].content == spans[i].content
  {
    forall i | 0 <= i < |spans|
      ensures RenderSpans(spans, start, selected)[i].content == spans[i].content
    {
      RenderSpansAt(spans, start, selected, i);
    }
  }

  lemma {:induction false} RenderSpansAppend(a: seq<Span>, b: seq<Span>, start: nat, selected: nat)
    ensures RenderSpans(a + b, start, selected)
         == RenderSpans(a, start, selected) + RenderSpans(b, start + CountLinks(a), selected)
    decreases |b|
  {
    if b == [] {
      assert a + b == a;
    } else {
      var b' := b[..|b| - 1];
      assert (a + b)[..|a + b| - 1] == a + b';
      RenderSpansAppend(a, b', start, selected);
      CountLinksAppend(a, b');
    }
  }

  /** Drawing line by line with one running counter is drawing the flattened
      content. */
  lemma {:induction false} RenderFlatten(lines: seq<Line>, selected: nat)
    ensures Flatten(RenderLines(lines, selected)) == RenderSpans(Flatten(lines), 0, selected)
    decreases |lines|
  {
    if lines != [] {
      var n := |lines| - 1;
      var init := lines[..n];
      var r := RenderLines(lines, selected);
      assert r[..n] == RenderLines(init, selected);
      RenderFlatten(init, selected);
      RenderSpansAppend(Flatten(init), lines[n], 0, selected);
    }
  }

  /** When more than `c` link-coloured spans exist, one of them has exactly
      `c` link-coloured spans before it. */
  lemma {:induction false} NthLinkExists(spans: seq<Span>, c: nat)
    requires c < CountLinks(spans)
    ensures exists i :: 0 <= i < |spans| && IsLinkSpan(spans[i]) && CountLinks(spans[..i]) == c
    decreases |spans|
  {
    var n := |spans| - 1;
    var init := spans[..n];
    if c < CountLinks(init) {
      NthLinkExists(init, c);
      var i :| 0 <= i < |init| && IsLinkSpan(init[i]) && CountLinks(init[..i]) == c;
      assert spans[..i] == init[..i];
      assert spans[i] == init[i];
    } else {
      assert IsLinkSpan(spans[n]) && CountLinks(spans[..n]) == c;
    }
  }

  /** Only the link-coloured span with exactly `selected` link-coloured spans
      before it can change. */
  lemma OthersUnchanged(spans: seq<Span>, selected: nat, j: nat)
    requires j < |spans|
    requires !IsLinkSpan(spans[j]) || CountLinks(spans[..j]) != selected
    ensures RenderSpans(spans, 0, selected)[j] == spans[j]
  {
    RenderSpansAt(spans, 0, selected, j);
  }

  /** Two different link-coloured spans have different numbers of
      link-coloured spans before them. */
  lemma LinkCountsDiffer(spans: seq<Span>, i: nat, j: nat)
    requires i < |spans| && j < |spans| && i != j && IsLinkSpan(spans[i])
    ensures IsLinkSpan(spans[j]) ==> CountLinks(spans[..i]) != CountLinks(spans[..j])
  {
    if IsLinkSpan(spans[j]) {
      var lo, hi := if i < j then i else j, if i < j then j else i;
      CountLinksStep(spans, lo);
      CountLinksMonotone(spans, lo + 1, hi);
    }
  }

  /** Exactly one span changes when the selection is below the number of
      link-coloured spans: the selected-th of them, which gets the highlight. */
  lemma HighlightsSelected(spans: seq<Span>, selected: nat)
    requires selected < CountLinks(spans)
    ensures var r := RenderSpans(spans, 0, selected);
      exists i :: 0 <= i < |spans| && IsLinkSpan(spans[i]) && CountLinks(spans[..i]) == selected &&
        r[i] == Highlight(spans[i]) && r[i] != spans[i] &&
        forall j :: 0 <= j < |spans| && j != i ==> r[j] == spans[j]
  {
    var r := RenderSpans(spans, 0, selected);
    NthLinkExists(spans, selected);
    var i :| 0 <= i < |spans| && IsLinkSpan(spans[i]) && CountLinks(spans[..i]) == selected;
    RenderSpansAt(spans, 0, selected, i);
    forall j | 0 <= j < |spans| && j != i
      ensures r[j] == spans[j]
    {
      LinkCountsDiffer(spans, i, j);
      OthersUnchanged(spans, selected, j);
    }
  }

  /** A selection at or past the number of link-coloured spans highlights nothing. */
  lemma HighlightsNothing(spans: seq<Span>, selected: nat)
    requires selected >= CountLinks(spans)
    ensures RenderSpans(spans, 0, selected) == spans
  {
    var r := RenderSpans(spans, 0, selected);
    forall j | 0 <= j < |spans|
      ensures r[j] == spans[j]
    {
      if IsLinkSpan(spans[j]) {
        CountLinksStep(spans, j);
        CountLinksMonotone(spans, j + 1, |spans|);
        assert spans[..|spans|] == spans;
      }
      OthersUnchanged(spans, selected, j);
    }
  }

  /** The overlay on whole lines, seen in document order: when the selection
      is below the number of link-coloured spans, exactly the selected-th of
      them is highlighted and every other span is drawn as it is; otherwise
      every span is drawn as it is. */
  lemma OverlayHighlights(lines: seq<Line>, selected: nat)
    ensures Flatten(RenderLines(lines, selected)) == RenderSpans(Flatten(lines), 0, selected)
    ensures var spans := Flatten(lines);
      var drawn := RenderSpans(spans, 0, selected);
      (selected < CountLinks(spans) ==>
        exists i :: 0 <= i < |spans| && IsLinkSpan(spans[i]) && CountLinks(spans[..i]) == selected &&
          drawn[i] == Highlight(spans[i]) &&
          forall j :: 0 <= j < |spans| && j != i ==> drawn[j] == spans[j]) &&
      (selected >= CountLinks(spans) ==> drawn == spans)
  {
    RenderFlatten(lines, selected);
    if selected < CountLinks(Flatten(lines)) {
      HighlightsSelected(Flatten(lines), selected);
    } else {
      HighlightsNothing(Flatten(lines), selected);
    }
  }
}
