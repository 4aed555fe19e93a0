/** The conversion loop of `App::fetch_page` (src/app.rs:58-102): html2text's
    rich lines become styled lines and the ordered list of links. Every link or
    image contributes a dark-grey label "[k]", a span in the link colour and one
    `LinkData`; the overlay later finds link k again as the k-th span in a link
    colour, so the correspondence below is what keeps the two in step. */
module Convert {
  import opened Types

  /** `Url::join(base, reference)` followed by `to_string()`; `None` when the
      reference cannot be resolved against the base. The joining itself is the
      url crate's and is a parameter of the model. */
  type Joiner = (string, string) -> Option<string>

  /** The address of a link: the joined URL, or the raw reference when joining fails. */
  function Resolve(join: Joiner, base: string, reference: string): string {
    match join(base, reference)
    case Some(u) => u
    case None => reference
  }

  predicate IsLinkAnnotation(a: RichAnnotation) {
    a.Link? || a.Image?
  }

  /** The link a single annotation designates, if it is a link or an image. */
  function AnnotationLink(a: RichAnnotation, join: Joiner, base: string): (r: Option<LinkData>)
    ensures r.Some? <==> IsLinkAnnotation(a)
  {
    match a
    case Link(target) => Some(LinkData(Resolve(join, base, target), LinkType.Web))
    case Image(src) => Some(LinkData(Resolve(join, base, src), LinkType.Image))
    case _ => None
  }

  /** The value of `current_link` after the annotation loop has read `tags`:
      each link or image annotation overwrites the previous one. */
  function LastLink(tags: seq<RichAnnotation>, join: Joiner, base: string): Option<LinkData>
  {
    if tags == [] then None
    else
      match AnnotationLink(tags[|tags| - 1], join, base)
      case Some(l) => Some(l)
      case None => LastLink(tags[..|tags| - 1], join, base)
  }

  /** The style of a plain tagged string: BOLD exactly when a `Strong`
      annotation is present. */
  function TextStyle(tags: seq<RichAnnotation>): Style {
    if Strong in tags then AddModifier(DefaultStyle, Bold) else DefaultStyle
  }

  /** Decimal digits of `n`, as `format!("{}", n)` writes them. */
  function Decimal(n: nat): (s: string)
    ensures |s| > 0
    ensures forall i :: 0 <= i < |s| ==> '0' <= s[i] <= '9'
  {
    var d := ['0' + (n % 10) as char];
    if n < 10 then d else Decimal(n / 10) + d
  }

  /** The number a string of decimal digits denotes. */
  function DigitsValue(s: string): int {
    if s == [] then 0 else DigitsValue(s[..|s| - 1]) * 10 + (s[|s| - 1] as int - '0' as int)
  }

  /** Reading the digits of `Decimal(n)` back gives `n`. */
  lemma {:induction false} DecimalRoundTrip(n: nat)
    ensures DigitsValue(Decimal(n)) == n
    decreases n
  {
    if n >= 10 {
      DecimalRoundTrip(n / 10);
      var s := Decimal(n);
      assert s[..|s| - 1] == Decimal(n / 10);
    }
  }

  /** The dark-grey label "[k]" in front of link number k. */
  function LabelSpan(k: nat): Span {
    Span("[" + Decimal(k) + "]", WithFg(DefaultStyle, DarkGray))
  }

  /** Different links get different labels. */
  lemma LabelsDistinct(j: nat, k: nat)
    requires j != k
    ensures LabelSpan(j) != LabelSpan(k)
  {
    var a, b := LabelSpan(j).content, LabelSpan(k).content;
    if a == b {
      assert a[1..|a| - 1] == Decimal(j);
      assert b[1..|b| - 1] == Decimal(k);
      DecimalRoundTrip(j);
      DecimalRoundTrip(k);
    }
  }

  /** The style of a link's text: blue and underlined for a web link,
      magenta and italic for an image. */
  function LinkStyle(t: LinkType): (s: Style)
    ensures s.fg == Some(if t == LinkType.Web then LINK_COLOR_WEB else LINK_COLOR_IMG)
    ensures s.bg == None && s.mods == if t == LinkType.Web then {Underlined} else {Italic}
  {
    match t
    case Web => AddModifier(WithFg(DefaultStyle, LINK_COLOR_WEB), Underlined)
    case Image => AddModifier(WithFg(DefaultStyle, LINK_COLOR_IMG), Italic)
  }

  /** How the overlay recognises a link: by its foreground colour alone. */
  predicate IsLinkSpan(s: Span) {
    s.style.fg == Some(LINK_COLOR_WEB) || s.style.fg == Some(LINK_COLOR_IMG)
  }

  /** The number of link-coloured spans in `spans`. */
  function CountLinks(spans: seq<Span>): nat {
    if spans == [] then 0
    else CountLinks(spans[..|spans| - 1]) + (if IsLinkSpan(spans[|spans| - 1]) then 1 else 0)
  }

  /** All spans of `lines`, top to bottom and left to right. */
  function Flatten(lines: seq<Line>): seq<Span> {
    if lines == [] then [] else Flatten(lines[..|lines| - 1]) + lines[|lines| - 1]
  }

  /** The spans and links one tagged string contributes when `k` links precede it. */
  function ConvertTagged(ts: TaggedString, k: nat, join: Joiner, base: string): (seq<Span>, seq<LinkData>) {
    match LastLink(ts.tag, join, base)
    case Some(l) => ([LabelSpan(k), Span(ts.s, LinkStyle(l.linkType))], [l])
    case None => ([Span(ts.s, TextStyle(ts.tag))], [])
  }

  /** The spans and links of one rich line when `k` links precede it. */
  function ConvertLine(line: RichLine, k: nat, join: Joiner, base: string): (seq<Span>, seq<LinkData>) {
    if line == [] then ([], [])
    else
      var (spans, links) := ConvertLine(line[..|line| - 1], k, join, base);
      var (s, l) := ConvertTagged(line[|line| - 1], k + |links|, join, base);
      (spans + s, links + l)
  }

  /** The content lines and links of a whole page. */
  function ConvertPage(rich: seq<RichLine>, join: Joiner, base: string): (seq<Line>, seq<LinkData>) {
    if rich == [] then ([], [])
    else
      var (lines, links) := ConvertPage(rich[..|rich| - 1], join, base);
      var (spans, l) := ConvertLine(rich[|rich| - 1], |links|, join, base);
      (lines + [spans], links + l)
  }

  /** The link-correspondence invariant, for spans whose first link is link
      number `b` of the page: there are as many link-coloured spans as links,
      and the span that has c link-coloured spans before it is link c, drawn in
      the style of its link type and preceded by the label "[b + c]". */
  predicate LinksIndexed(spans: seq<Span>, links: seq<LinkData>, b: nat) {
    CountLinks(spans) == |links| &&
    forall i :: 0 <= i < |spans| ==> LinkAt(spans, links, b, i)
  }

  /** The correspondence at one position of `spans`. */
  predicate LinkAt(spans: seq<Span>, links: seq<LinkData>, b: nat, i: nat)
    requires i < |spans|
  {
    IsLinkSpan(spans[i]) ==>
      0 < i &&
      CountLinks(spans[..i]) < |links| &&
      spans[i - 1] == LabelSpan(b + CountLinks(spans[..i])) &&
      spans[i].style == LinkStyle(links[CountLinks(spans[..i])].linkType)
  }

  lemma {:induction false} CountLinksAppend(a: seq<Span>, b: seq<Span>)
    ensures CountLinks(a + b) == CountLinks(a) + CountLinks(b)
    decreases |b|
  {
    if b == [] {
      assert a + b == a;
    } else {
      var b' := b[..|b| - 1];
      assert (a + b)[..|a + b| - 1] == a + b';
      CountLinksAppend(a, b');
    }
  }

  /** A prefix never holds more link-coloured spans than a longer prefix. */
  lemma CountLinksMonotone(s: seq<Span>, i: nat, j: nat)
    requires i <= j <= |s|
    ensures CountLinks(s[..i]) <= CountLinks(s[..j])
  {
    assert s[..j] == s[..i] + s[i..j];
    CountLinksAppend(s[..i], s[i..j]);
  }

  /** The span at `i` is counted by the prefix that ends just after it. */
  lemma CountLinksStep(s: seq<Span>, i: nat)
    requires i < |s|
    ensures CountLinks(s[..i + 1]) == CountLinks(s[..i]) + (if IsLinkSpan(s[i]) then 1 else 0)
  {
    assert s[..i + 1][..i] == s[..i];
  }

  lemma {:induction false} TaggedIndexed(ts: TaggedString, k: nat, join: Joiner, base: string)
    ensures LinksIndexed(ConvertTagged(ts, k, join, base).0, ConvertTagged(ts, k, join, base).1, k)
  {
    var (spans, links) := ConvertTagged(ts, k, join, base);
    assert !IsLinkSpan(LabelSpan(k));
    assert spans[..0] == [];
    match LastLink(ts.tag, join, base)
    case Some(l) =>
      assert spans[..1] == [spans[0]];
      assert CountLinks(spans[..1]) == 0;
      assert spans == spans[..1] + [spans[1]];
      assert IsLinkSpan(spans[1]);
      assert LinkAt(spans, links, k, 0);
      assert LinkAt(spans, links, k, 1);
    case None =>
      assert spans == spans[..0] + [spans[0]];
      assert LinkAt(spans, links, k, 0);
  }

  /** A position in the first piece keeps its correspondence after gluing. */
  lemma LinkAtLeft(s1: seq<Span>, l1: seq<LinkData>, s2: seq<Span>, l2: seq<LinkData>, b: nat, i: nat)
    requires i < |s1| && LinkAt(s1, l1, b, i)
    ensures LinkAt(s1 + s2, l1 + l2, b, i)
  {
    var s := s1 + s2;
    assert s[..i] == s1[..i];
    assert s[i] == s1[i];
    assert 0 < i ==> s[i - 1] == s1[i - 1];
  }

  /** A position in the second piece keeps its correspondence after gluing,
      shifted by the first piece's length and link count. */
  lemma LinkAtRight(s1: seq<Span>, l1: seq<LinkData>, s2: seq<Span>, l2: seq<LinkData>, b: nat, j: nat)
    requires CountLinks(s1) == |l1|
    requires j < |s2| && LinkAt(s2, l2, b + |l1|, j)
    ensures LinkAt(s1 + s2, l1 + l2, b, |s1| + j)
  {
    var s, l, i := s1 + s2, l1 + l2, |s1| + j;
    PrefixCount(s1, s2, j);
    LinkAtShift(s, l, b, i, s2, l2, b + |l1|, j, |l1|);
  }

  /** The correspondence carries over from position `j` of `s2` to position
      `i` of `s` when the spans around them agree, `d` more link-coloured
      spans precede position `i`, and the links are shifted by `d`. */
  lemma LinkAtShift(s: seq<Span>, l: seq<LinkData>, b: nat, i: nat,
                    s2: seq<Span>, l2: seq<LinkData>, b2: nat, j: nat, d: nat)
    requires i < |s| && j < |s2| && s[i] == s2[j] && (0 < j ==> 0 < i && s[i - 1] == s2[j - 1])
    requires CountLinks(s[..i]) == d + CountLinks(s2[..j]) && b2 == b + d
    requires |l| == d + |l2| && forall k :: 0 <= k < |l2| ==> l[d + k] == l2[k]
    requires LinkAt(s2, l2, b2, j)
    ensures LinkAt(s, l, b, i)
  {
    if IsLinkSpan(s[i]) {
      var c, n := CountLinks(s2[..j]), CountLinks(s[..i]);
      assert l[n] == l2[c];
    }
  }

  /** A prefix reaching into the second piece counts the whole first piece. */
  lemma PrefixCount(s1: seq<Span>, s2: seq<Span>, j: nat)
    requires j <= |s2|
    ensures CountLinks((s1 + s2)[..|s1| + j]) == CountLinks(s1) + CountLinks(s2[..j])
  {
    assert (s1 + s2)[..|s1| + j] == s1 + s2[..j];
    CountLinksAppend(s1, s2[..j]);
  }

  /** Gluing two pieces keeps the correspondence when the second piece's links
      are numbered after the first's. */
  lemma {:induction false} IndexedAppend(s1: seq<Span>, l1: seq<LinkData>, s2: seq<Span>, l2: seq<LinkData>, b: nat)
    requires LinksIndexed(s1, l1, b)
    requires LinksIndexed(s2, l2, b + |l1|)
    ensures LinksIndexed(s1 + s2, l1 + l2, b)
  {
    var s, l := s1 + s2, l1 + l2;
    CountLinksAppend(s1, s2);
    forall i | 0 <= i < |s|
      ensures LinkAt(s, l, b, i)
    {
      if i < |s1| {
        LinkAtLeft(s1, l1, s2, l2, b, i);
      } else {
        LinkAtRight(s1, l1, s2, l2, b, i - |s1|);
      }
    }
  }

  lemma {:induction false} LineIndexed(line: RichLine, k: nat, join: Joiner, base: string)
    ensures LinksIndexed(ConvertLine(line, k, join, base).0, ConvertLine(line, k, join, base).1, k)
    decreases |line|
  {
    if line != [] {
      var (spans, links) := ConvertLine(line[..|line| - 1], k, join, base);
      LineIndexed(line[..|line| - 1], k, join, base);
      TaggedIndexed(line[|line| - 1], k + |links|, join, base);
      var (s, l) := ConvertTagged(line[|line| - 1], k + |links|, join, base);
      IndexedAppend(spans, links, s, l, k);
    }
  }

  /** The central invariant: after converting a page, the k-th link-coloured
      span of the content is link k, in its type's style and preceded by the
      label "[k]", and there is one output line per rich input line. */
  lemma {:induction false} PageIndexed(rich: seq<RichLine>, join: Joiner, base: string)
    ensures |ConvertPage(rich, join, base).0| == |rich|
    ensures LinksIndexed(Flatten(ConvertPage(rich, join, base).0), ConvertPage(rich, join, base).1, 0)
    ensures LinksFrom(ConvertPage(rich, join, base).1, LinkedStrings(rich, join, base), join, base)
    ensures TextsIndexed(Flatten(ConvertPage(rich, join, base).0), LinkedStrings(rich, join, base))
    decreases |rich|
  {
    PageSources(rich, join, base);
    if rich != [] {
      var (lines, links) := ConvertPage(rich[..|rich| - 1], join, base);
      PageIndexed(rich[..|rich| - 1], join, base);
      LineIndexed(rich[|rich| - 1], |links|, join, base);
      var (spans, l) := ConvertLine(rich[|rich| - 1], |links|, join, base);
      assert (lines + [spans])[..|lines|] == lines;
      IndexedAppend(Flatten(lines), links, spans, l, 0);
    }
  }

  /** The tagged strings of `line` that carry a link or an image, left to right. */
  function LinkedIn(line: RichLine, join: Joiner, base: string): seq<TaggedString> {
    if line == [] then []
    else
      var ts := line[|line| - 1];
      LinkedIn(line[..|line| - 1], join, base) + (if LastLink(ts.tag, join, base).Some? then [ts] else [])
  }

  /** The tagged strings of a page that carry a link or an image, in document order. */
  function LinkedStrings(rich: seq<RichLine>, join: Joiner, base: string): seq<TaggedString> {
    if rich == [] then []
    else LinkedStrings(rich[..|rich| - 1], join, base) + LinkedIn(rich[|rich| - 1], join, base)
  }

  /** Link c is the link that the tagged string `srcs[c]` carries. */
  predicate LinksFrom(links: seq<LinkData>, srcs: seq<TaggedString>, join: Joiner, base: string) {
    |links| == |srcs| &&
    forall c :: 0 <= c < |srcs| ==> LastLink(srcs[c].tag, join, base) == Some(links[c])
  }

  /** The link-coloured span with c link-coloured spans before it shows the
      text of `srcs[c]`. */
  predicate TextsIndexed(spans: seq<Span>, srcs: seq<TaggedString>) {
    CountLinks(spans) == |srcs| &&
    forall i :: 0 <= i < |spans| ==> TextAt(spans, srcs, i)
  }

  /** The text correspondence at one position of `spans`. */
  predicate TextAt(spans: seq<Span>, srcs: seq<TaggedString>, i: nat)
    requires i < |spans|
  {
    IsLinkSpan(spans[i]) ==>
      CountLinks(spans[..i]) < |srcs| && spans[i].content == srcs[CountLinks(spans[..i])].s
  }

  lemma LinksFromAppend(l1: seq<LinkData>, t1: seq<TaggedString>, l2: seq<LinkData>, t2: seq<TaggedString>,
                        join: Joiner, base: string)
    requires LinksFrom(l1, t1, join, base) && LinksFrom(l2, t2, join, base)
    ensures LinksFrom(l1 + l2, t1 + t2, join, base)
  {
    forall c | 0 <= c < |t1 + t2|
      ensures LastLink((t1 + t2)[c].tag, join, base) == Some((l1 + l2)[c])
    {
      if c >= |t1| {
        assert (t1 + t2)[c] == t2[c - |t1|] && (l1 + l2)[c] == l2[c - |t1|];
      }
    }
  }

  /** The spans of one tagged string show its own text when it carries a link. */
  lemma TaggedSources(ts: TaggedString, k: nat, join: Joiner, base: string)
    ensures var srcs := if LastLink(ts.tag, join, base).Some? then [ts] else [];
      LinksFrom(ConvertTagged(ts, k, join, base).1, srcs, join, base) &&
      TextsIndexed(ConvertTagged(ts, k, join, base).0, srcs)
  {
    var (spans, links) := ConvertTagged(ts, k, join, base);
    var srcs := if LastLink(ts.tag, join, base).Some? then [ts] else [];
    assert !IsLinkSpan(LabelSpan(k));
    assert spans[..0] == [];
    if LastLink(ts.tag, join, base).Some? {
      assert spans[..1] == [spans[0]];
      assert CountLinks(spans[..1]) == 0;
      assert spans == spans[..1] + [spans[1]];
      assert TextAt(spans, srcs, 0) && TextAt(spans, srcs, 1);
    } else {
      assert spans == spans[..0] + [spans[0]];
      assert TextAt(spans, srcs, 0);
    }
  }

  /** A position in the first piece keeps its text correspondence after gluing. */
  lemma TextAtLeft(s1: seq<Span>, t1: seq<TaggedString>, s2: seq<Span>, t2: seq<TaggedString>, i: nat)
    requires i < |s1| && TextAt(s1, t1, i)
    ensures TextAt(s1 + s2, t1 + t2, i)
  {
    var s := s1 + s2;
    assert s[..i] == s1[..i];
    assert s[i] == s1[i];
  }

  /** The text correspondence carries over from position `j` of `s2` to
      position `i` of `s` when the spans agree, `d` more link-coloured spans
      precede position `i`, and the sources are shifted by `d`. */
  lemma TextAtShift(s: seq<Span>, t: seq<TaggedString>, i: nat, s2: seq<Span>, t2: seq<TaggedString>, j: nat, d: nat)
    requires i < |s| && j < |s2| && s[i] == s2[j]
    requires CountLinks(s[..i]) == d + CountLinks(s2[..j])
    requires |t| == d + |t2| && forall k :: 0 <= k < |t2| ==> t[d + k] == t2[k]
    requires TextAt(s2, t2, j)
    ensures TextAt(s, t, i)
  {
    if IsLinkSpan(s[i]) {
      var c, n := CountLinks(s2[..j]), CountLinks(s[..i]);
      assert t[n] == t2[c];
    }
  }

  /** Gluing two pieces keeps the text correspondence. */
  lemma TextsAppend(s1: seq<Span>, t1: seq<TaggedString>, s2: seq<Span>, t2: seq<TaggedString>)
    requires TextsIndexed(s1, t1) && TextsIndexed(s2, t2)
    ensures TextsIndexed(s1 + s2, t1 + t2)
  {
    var s, t := s1 + s2, t1 + t2;
    CountLinksAppend(s1, s2);
    forall i | 0 <= i < |s|
      ensures TextAt(s, t, i)
    {
      if i < |s1| {
        TextAtLeft(s1, t1, s2, t2, i);
      } else {
        var j := i - |s1|;
        PrefixCount(s1, s2, j);
        TextAtShift(s, t, i, s2, t2, j, |t1|);
      }
    }
  }

  lemma {:induction false} LineSources(line: RichLine, k: nat, join: Joiner, base: string)
    ensures LinksFrom(ConvertLine(line, k, join, base).1, LinkedIn(line, join, base), join, base)
    ensures TextsIndexed(ConvertLine(line, k, join, base).0, LinkedIn(line, join, base))
    decreases |line|
  {
    if line != [] {
      var init, ts := line[..|line| - 1], line[|line| - 1];
      var (spans, links) := ConvertLine(init, k, join, base);
      LineSources(init, k, join, base);
      TaggedSources(ts, k + |links|, join, base);
      var (s, l) := ConvertTagged(ts, k + |links|, join, base);
      var src := if LastLink(ts.tag, join, base).Some? then [ts] else [];
      LinksFromAppend(links, LinkedIn(init, join, base), l, src, join, base);
      TextsAppend(spans, LinkedIn(init, join, base), s, src);
    }
  }

  /** Link c of a page is the link of the c-th tagged string that carries one,
      and the c-th link-coloured span shows that tagged string's text. */
  lemma {:induction false} PageSources(rich: seq<RichLine>, join: Joiner, base: string)
    ensures LinksFrom(ConvertPage(rich, join, base).1, LinkedStrings(rich, join, base), join, base)
    ensures TextsIndexed(Flatten(ConvertPage(rich, join, base).0), LinkedStrings(rich, join, base))
    decreases |rich|
  {
    if rich != [] {
      var init, line := rich[..|rich| - 1], rich[|rich| - 1];
      var (lines, links) := ConvertPage(init, join, base);
      PageSources(init, join, base);
      LineSources(line, |links|, join, base);
      var (spans, l) := ConvertLine(line, |links|, join, base);
      assert (lines + [spans])[..|lines|] == lines;
      LinksFromAppend(links, LinkedStrings(init, join, base), l, LinkedIn(line, join, base), join, base);
      TextsAppend(Flatten(lines), LinkedStrings(init, join, base), spans, LinkedIn(line, join, base));
    }
  }

  /** No annotation after position `i` is a link or an image. */
  predicate NoLinkAfter(tags: seq<RichAnnotation>, i: int) {
    forall j :: 0 <= j < |tags| && i < j ==> !IsLinkAnnotation(tags[j])
  }

  /** `LastLink` is None exactly when no annotation is a link or an image. */
  lemma {:induction false} LastLinkNone(tags: seq<RichAnnotation>, join: Joiner, base: string)
    ensures LastLink(tags, join, base).None? <==> NoLinkAfter(tags, -1)
    decreases |tags|
  {
    if tags != [] {
      var n := |tags| - 1;
      var init := tags[..n];
      LastLinkNone(init, join, base);
      if !IsLinkAnnotation(tags[n]) {
        assert forall j :: 0 <= j < n ==> tags[j] == init[j];
      }
    }
  }

  /** The last link or image annotation wins: when annotation `i` is a link
      or an image and none after it is, `LastLink` is the link of annotation `i`. */
  lemma {:induction false} LastLinkWins(tags: seq<RichAnnotation>, i: nat, join: Joiner, base: string)
    requires i < |tags| && IsLinkAnnotation(tags[i]) && NoLinkAfter(tags, i)
    ensures LastLink(tags, join, base) == AnnotationLink(tags[i], join, base)
    decreases |tags|
  {
    var n := |tags| - 1;
    if i < n {
      var init := tags[..n];
      assert !IsLinkAnnotation(tags[n]);
      assert forall j :: 0 <= j < n ==> tags[j] == init[j];
      LastLinkWins(init, i, join, base);
    }
  }

  /** A tagged string without a link or image annotation yields one span with
      its own text, in the default style plus BOLD exactly when it is `Strong`;
      with one, it yields the label and the link span and one link. */
  lemma TaggedShape(ts: TaggedString, k: nat, join: Joiner, base: string)
    ensures var (spans, links) := ConvertTagged(ts, k, join, base);
      if NoLinkAfter(ts.tag, -1) then
        links == [] && spans == [Span(ts.s, Style(None, None, if Strong in ts.tag then {Bold} else {}))]
      else
        LastLink(ts.tag, join, base).Some? &&
        links == [LastLink(ts.tag, join, base).value] &&
        spans == [LabelSpan(k), Span(ts.s, LinkStyle(links[0].linkType))]
  {
    LastLinkNone(ts.tag, join, base);
    assert AddModifier(DefaultStyle, Bold).mods == {Bold};
  }

  /** A link's URL is the join of the base and the reference when the join
      succeeds and the raw reference otherwise; a link annotation gives a web
      link and an image annotation an image link. */
  lemma AnnotationLinkResolves(a: RichAnnotation, join: Joiner, base: string)
    requires IsLinkAnnotation(a)
    ensures var reference := if a.Link? then a.target else a.src;
      AnnotationLink(a, join, base) ==
        Some(LinkData(if join(base, reference).Some? then join(base, reference).value else reference,
                      if a.Link? then LinkType.Web else LinkType.Image))
  {
  }

  /** The innermost loop of the conversion: the annotations of one tagged
      string decide its style and the link it carries, if any. */
  method ReadAnnotations(tags: seq<RichAnnotation>, join: Joiner, base: string)
    returns (style: Style, currentLink: Option<LinkData>)
    ensures style == TextStyle(tags)
    ensures currentLink == LastLink(tags, join, base)
  {
    style := DefaultStyle;
    currentLink := None;
    for a := 0 to |tags|
      invariant style == TextStyle(tags[..a])
      invariant currentLink == LastLink(tags[..a], join, base)
    {
      assert tags[..a + 1][..a] == tags[..a];
      assert Strong in tags[..a + 1] <==> Strong in tags[..a] || tags[a] == Strong;
      match tags[a]
      case Link(target) =>
        currentLink := Some(LinkData(Resolve(join, base, target), LinkType.Web));
      case Image(src) =>
        currentLink := Some(LinkData(Resolve(join, base, src), LinkType.Image));
      case Strong =>
        style := AddModifier(style, Bold);
      case _ =>
    }
    assert tags[..|tags|] == tags;
  }

  /** The middle loop of the conversion: the tagged strings of one rich line
      become its spans, and the links they carry are pushed onto `links`,
      numbered on from `linkCounter`. */
  method ConvertOneLine(line: RichLine, links: seq<LinkData>, linkCounter: nat, join: Joiner, base: string)
    returns (spans: seq<Span>, newLinks: seq<LinkData>, newCounter: nat)
    requires linkCounter == |links|
    ensures newCounter == |newLinks|
    ensures |links| <= |newLinks| && newLinks[..|links|] == links
    ensures (spans, newLinks[|links|..]) == ConvertLine(line, |links|, join, base)
    ensures LinksIndexed(spans, newLinks[|links|..], |links|)
    ensures LinksFrom(newLinks[|links|..], LinkedIn(line, join, base), join, base)
    ensures TextsIndexed(spans, LinkedIn(line, join, base))
  {
    spans, newLinks, newCounter := [], links, linkCounter;
    assert line[..0] == [] && newLinks[|links|..] == [];
    for t := 0 to |line|
      invariant newCounter == |newLinks|
      invariant |links| <= |newLinks| && newLinks[..|links|] == links
      invariant (spans, newLinks[|links|..]) == ConvertLine(line[..t], |links|, join, base)
    {
      var ts := line[t];
      assert line[..t + 1][..t] == line[..t];
      ghost var tail := newLinks[|links|..];
      ghost var piece := ConvertTagged(ts, |links| + |tail|, join, base);
      assert ConvertLine(line[..t + 1], |links|, join, base) == (spans + piece.0, tail + piece.1);
      var style, currentLink := ReadAnnotations(ts.tag, join, base);
      if currentLink.Some? {
        var link := currentLink.value;
        spans := spans + [LabelSpan(newCounter), Span(ts.s, LinkStyle(link.linkType))];
        newLinks := newLinks + [link];
        newCounter := newCounter + 1;
      } else {
        spans := spans + [Span(ts.s, style)];
      }
      assert newLinks[|links|..] == tail + piece.1;
    }
    assert line[..|line|] == line;
    LineIndexed(line, |links|, join, base);
    LineSources(line, |links|, join, base);
  }

  /** The conversion loop of `fetch_page`: every rich line becomes one
      content line, and the links are collected in document order. */
  method ConvertRichLines(rich: seq<RichLine>, join: Joiner, base: string)
    returns (newLines: seq<Line>, newLinks: seq<LinkData>)
    ensures (newLines, newLinks) == ConvertPage(rich, join, base)
    ensures |newLines| == |rich|
    ensures LinksIndexed(Flatten(newLines), newLinks, 0)
    ensures LinksFrom(newLinks, LinkedStrings(rich, join, base), join, base)
    ensures TextsIndexed(Flatten(newLines), LinkedStrings(rich, join, base))
  {
    newLines, newLinks := [], [];
    var linkCounter: nat := 0;
    for r := 0 to |rich|
      invariant (newLines, newLinks) == ConvertPage(rich[..r], join, base)
      invariant linkCounter == |newLinks|
    {
      assert rich[..r + 1][..r] == rich[..r];
      var spans;
      ghost var linksBefore := newLinks;
      spans, newLinks, linkCounter := ConvertOneLine(rich[r], newLinks, linkCounter, join, base);
      assert newLinks == linksBefore + newLinks[|linksBefore|..];
      newLines := newLines + [spans];
    }
    assert rich[..|rich|] == rich;
    PageIndexed(rich, join, base);
  }
}
