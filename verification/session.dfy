/** The browser's session state, `App` (src/app.rs:8-158): the current
    address, the content and its links, the selection, the scroll offset, the
    mode, the command buffer, the two address stacks and the image preview.

    The class keeps the source's fields and updates them in place. Its ghost
    view `Snapshot()` is a `State` value, and the functions on `State` below
    specify each operation; each method's postcondition ties the new snapshot
    to the function applied to the old one.

    The network, html2text, the url crate and the image library are the
    collaborators in `Web`, given as functions. */
module Session {
  import opened Types
  import opened Convert
  import opened Overlay
  import opened AsciiArt

  /** The outside world as the session sees it.
      - `page(url)`: building the client, sending the request, parsing `url`
        as the base and decoding the body, then html2text's rich rendering at
        width 100; `None` when any of these fails.
      - `join(base, reference)`: the url crate's join of a reference against
        the page's base address.
      - `picture(url)`: downloading and decoding the image and resizing it to
        80 columns in greyscale; `None` when any of these fails. */
  datatype Web = Web(
    page: string -> Option<seq<RichLine>>,
    join: Joiner,
    picture: string -> Option<Luma>)

  /** All fields of `App`, as one value. */
  datatype State = State(
    currentUrl: string,
    contentLines: seq<Line>,
    links: seq<LinkData>,
    selectedLinkIdx: nat,
    scroll: u16,
    status: string,
    mode: Mode,
    commandBuffer: string,
    history: seq<string>,
    future: seq<string>,
    imagePreview: Option<seq<string>>)

  /** The selection names an existing link, and is 0 when there is none. */
  predicate SelectionInRange(s: State) {
    if s.links == [] then s.selectedLinkIdx == 0 else s.selectedLinkIdx < |s.links|
  }

  /** What every reachable session satisfies: the selection is in range and
      the link-coloured spans of the content correspond one to one, in order,
      with the links. */
  predicate StateValid(s: State) {
    SelectionInRange(s) && LinksIndexed(Flatten(s.contentLines), s.links, 0)
  }

  function FetchingStatus(url: string): string { "Fetching " + url + "..." }
  function LoadedStatus(url: string): string { "Loaded: " + url }
  function ProcessingStatus(url: string): string { "Processing Image AA: " + url + "..." }
  const PreviewLoadedStatus := "Image AA Loaded. Press ESC to close."

  /** `App::new`. */
  function Initial(startUrl: string): State {
    State(startUrl, [], [], 0, 0, "Voyager Ready", Normal, [], [], [], None)
  }

  predicate HasScheme(url: string) {
    StartsWith(url, "http://") || StartsWith(url, "https://")
  }

  /** The scheme defaulting of `navigate`: "https://" is put in front exactly
      when the address starts with neither "http://" nor "https://". The
      result always has a scheme. */
  function WithScheme(url: string): (r: string)
    ensures HasScheme(r)
    ensures r == url <==> HasScheme(url)
    ensures r == url || r == "https://" + url
  {
    if !HasScheme(url) then
      var r := "https://" + url;
      assert r[..|"https://"|] == "https://";
      r
    else url
  }

  /** What `fetch_page` does to the session: the status announces the fetch;
      on success the converted page replaces the content and the links, and the
      selection and the scroll offset return to 0. The flag says whether it
      succeeded. */
  function Fetched(s: State, web: Web): (bool, State) {
    var s1 := s.(status := FetchingStatus(s.currentUrl));
    match web.page(s.currentUrl)
    case None => (false, s1)
    case Some(rich) =>
      var (lines, links) := ConvertPage(rich, web.join, s.currentUrl);
      (true, s1.(contentLines := lines, links := links, selectedLinkIdx := 0, scroll := 0,
                 status := LoadedStatus(s.currentUrl)))
  }

  /** The address bookkeeping of `navigate`, done before the fetch. */
  function Pushed(s: State, url: string): State {
    s.(history := if s.currentUrl != [] then s.history + [s.currentUrl] else s.history,
       future := [],
       currentUrl := WithScheme(url))
  }

  /** `navigate`: the bookkeeping, then the fetch. */
  function Navigated(s: State, url: string, web: Web): (bool, State) {
    Fetched(Pushed(s, url), web)
  }

  /** The address bookkeeping of the `back` command: the top of `history`
      becomes the current address and the current address goes onto
      `future`. Nothing changes when `history` is empty. */
  function WentBack(s: State): State {
    if s.history == [] then s
    else
      s.(history := s.history[..|s.history| - 1],
         future := s.future + [s.currentUrl],
         currentUrl := s.history[|s.history| - 1])
  }

  /** `preview_image`: on success the quantized image is the preview. */
  function Previewed(s: State, url: string, web: Web): (bool, State) {
    var s1 := s.(status := ProcessingStatus(url));
    match web.picture(url)
    case None => (false, s1)
    case Some(gray) => (true, s1.(imagePreview := Some(ArtOf(gray)), status := PreviewLoadedStatus))
  }

  /** A fetch keeps the session valid, fails exactly when the collaborator
      does, and touches only the content, the links, the selection, the scroll
      offset and the status. On failure only the status changes. */
  lemma FetchedValid(s: State, web: Web)
    requires StateValid(s)
    ensures var (ok, t) := Fetched(s, web);
      StateValid(t) &&
      ok == web.page(s.currentUrl).Some? &&
      t.(contentLines := s.contentLines, links := s.links, selectedLinkIdx := s.selectedLinkIdx,
         scroll := s.scroll, status := s.status) == s &&
      (!ok ==> t == s.(status := FetchingStatus(s.currentUrl))) &&
      (ok ==> |t.contentLines| == |web.page(s.currentUrl).value| && t.selectedLinkIdx == 0 && t.scroll == 0)
  {
    if web.page(s.currentUrl).Some? {
      PageIndexed(web.page(s.currentUrl).value, web.join, s.currentUrl);
    }
  }

  /** `navigate` changes the stacks and the address whether or not the fetch
      succeeds: the old address is pushed onto `history` when it is not empty,
      and `future` is emptied. */
  lemma NavigateBookkeeping(s: State, url: string, web: Web)
    requires StateValid(s)
    ensures var (ok, t) := Navigated(s, url, web);
      StateValid(t) &&
      t.currentUrl == WithScheme(url) &&
      t.history == s.history + (if s.currentUrl != [] then [s.currentUrl] else []) &&
      t.future == [] &&
      t.mode == s.mode && t.commandBuffer == s.commandBuffer && t.imagePreview == s.imagePreview &&
      (!ok ==> t.contentLines == s.contentLines && t.links == s.links && t.scroll == s.scroll)
  {
    FetchedValid(Pushed(s, url), web);
  }

  /** `back` pops the last address off `history` and makes it current, and
      pushes the address it leaves onto `future`; with an empty `history` it
      changes nothing. The two stacks hold as many addresses together as before. */
  lemma BackKeepsStackSizes(s: State)
    ensures |WentBack(s).history| + |WentBack(s).future| == |s.history| + |s.future|
    ensures s.history == [] ==> WentBack(s) == s
    ensures s.history != [] ==>
      var t := WentBack(s);
      t.currentUrl == s.history[|s.history| - 1] &&
      t.history + [s.history[|s.history| - 1]] == s.history &&
      t.future == s.future + [s.currentUrl]
  {
  }

  /** Going to `a`, then to `b`, then back returns to `a`, with `b` the only
      address on `future` and `history` as it was after the first step. */
  lemma NavigateNavigateBack(s: State, a: string, b: string, web: Web)
    ensures var s1 := Navigated(s, a, web).1;
      var s3 := WentBack(Navigated(s1, b, web).1);
      s3.currentUrl == WithScheme(a) && s3.future == [WithScheme(b)] && s3.history == s1.history
  {
    var s1 := Navigated(s, a, web).1;
    assert s1.currentUrl == WithScheme(a);
    assert s1.currentUrl != [] by { assert HasScheme(s1.currentUrl); }
    var s2 := Navigated(s1, b, web).1;
    assert s2.history == s1.history + [s1.currentUrl];
    assert s2.history[..|s2.history| - 1] == s1.history;
  }

  /** A new navigation after going back forgets everything `back` put on `future`. */
  lemma NavigateAfterBackClearsFuture(s: State, url: string, web: Web)
    ensures Navigated(WentBack(s), url, web).1.future == []
  {
  }

  /** A preview touches only the preview and the status. */
  lemma PreviewedKeepsContent(s: State, url: string, web: Web)
    requires StateValid(s)
    ensures var (ok, t) := Previewed(s, url, web);
      StateValid(t) &&
      ok == web.picture(url).Some? &&
      t.(imagePreview := s.imagePreview, status := s.status) == s &&
      (ok ==> t.imagePreview.Some? && |t.imagePreview.value| == |web.picture(url).value|) &&
      (!ok ==> t.imagePreview == s.imagePreview)
  {
  }

  /** Drawing one more line appends it, drawn after the link-coloured spans
      of the lines above it. */
  lemma RenderLinesStep(lines: seq<Line>, j: nat, selected: nat)
    requires j < |lines|
    ensures RenderLines(lines[..j + 1], selected)
         == RenderLines(lines[..j], selected) + [RenderSpans(lines[j], CountLinks(Flatten(lines[..j])), selected)]
    ensures CountLinks(Flatten(lines[..j + 1])) == CountLinks(Flatten(lines[..j])) + CountLinks(lines[j])
  {
    assert lines[..j + 1][..j] == lines[..j];
    CountLinksAppend(Flatten(lines[..j]), lines[j]);
  }

  /** The browser session: the fields of `App`, updated in place. */
  class App {
    var currentUrl: string
    var contentLines: seq<Line>
    var links: seq<LinkData>
    var selectedLinkIdx: nat
    var scroll: u16
    var status: string
    var mode: Mode
    var commandBuffer: string
    var history: seq<string>
    var future: seq<string>
    var imagePreview: Option<seq<string>>

    ghost function Snapshot(): State
      reads this
    {
      State(currentUrl, contentLines, links, selectedLinkIdx, scroll, status, mode,
            commandBuffer, history, future, imagePreview)
    }

    ghost predicate Valid()
      reads this
    {
      StateValid(Snapshot())
    }

    /** `App::new`: the start address, nothing loaded, Normal mode. */
    constructor (startUrl: string)
      ensures Valid() && Snapshot() == Initial(startUrl)
    {
      currentUrl := startUrl;
      contentLines := [];
      links := [];
      selectedLinkIdx := 0;
      scroll := 0;
      status := "Voyager Ready";
      mode := Normal;
      commandBuffer := [];
      history := [];
      future := [];
      imagePreview := None;
    }

    /** `App::fetch_page`: fetch the current address and, when that succeeds,
        replace the content and the links wholesale. */
    method FetchPage(web: Web) returns (ok: bool)
      requires Valid()
      modifies this`status, this`contentLines, this`links, this`selectedLinkIdx, this`scroll
      ensures Valid()
      ensures (ok, Snapshot()) == Fetched(old(Snapshot()), web)
    {
      ghost var expected := Fetched(Snapshot(), web);
      FetchedValid(Snapshot(), web);
      status := FetchingStatus(currentUrl);
      var fetched := web.page(currentUrl);
      if fetched.None? {
        assert Snapshot() == expected.1;
        return false;
      }
      var newLines, newLinks := ConvertRichLines(fetched.value, web.join, currentUrl);
      contentLines := newLines;
      links := newLinks;
      selectedLinkIdx := 0;
      scroll := 0;
      status := LoadedStatus(currentUrl);
      ok := true;
      assert Snapshot() == expected.1;
    }

    /** `App::navigate`: default the scheme, push the current address when
        there is one, forget `future`, then fetch. */
    method Navigate(url: string, web: Web) returns (ok: bool)
      requires Valid()
      modifies this`currentUrl, this`history, this`future
      modifies this`status, this`contentLines, this`links, this`selectedLinkIdx, this`scroll
      ensures Valid()
      ensures (ok, Snapshot()) == Navigated(old(Snapshot()), url, web)
    {
      var address := url;
      if !StartsWith(address, "http://") && !StartsWith(address, "https://") {
        address := "https://" + address;
      }
      if currentUrl != [] {
        history := history + [currentUrl];
      }
      future := [];
      currentUrl := address;
      ok := FetchPage(web);
    }

    /** `App::preview_image`: fetch and quantize the image into the preview. */
    method PreviewImage(url: string, web: Web) returns (ok: bool)
      requires Valid()
      modifies this`status, this`imagePreview
      ensures Valid()
      ensures (ok, Snapshot()) == Previewed(old(Snapshot()), url, web)
    {
      status := ProcessingStatus(url);
      var gray := web.picture(url);
      if gray.None? {
        return false;
      }
      var aa := Quantize(gray.value);
      imagePreview := Some(aa);
      status := PreviewLoadedStatus;
      ok := true;
    }

    /** `App::render_content`: the content as drawn, with the selected link
        highlighted (what that means is `OverlayHighlights`). It reads the
        session and changes nothing. */
    method RenderContent() returns (rendered: seq<Line>)
      ensures rendered == RenderLines(contentLines, selectedLinkIdx)
      ensures Flatten(rendered) == RenderSpans(Flatten(contentLines), 0, selectedLinkIdx)
    {
      rendered := [];
      var currentIdx: nat := 0;
      for j := 0 to |contentLines|
        invariant rendered == RenderLines(contentLines[..j], selectedLinkIdx)
        invariant currentIdx == CountLinks(Flatten(contentLines[..j]))
      {
        var line := contentLines[j];
        ghost var start := currentIdx;
        var spans: seq<Span> := [];
        for i := 0 to |line|
          invariant spans == RenderSpans(line[..i], start, selectedLinkIdx)
          invariant currentIdx == start + CountLinks(line[..i])
        {
          assert line[..i + 1][..i] == line[..i];
          assert RenderSpans(line[..i + 1], start, selectedLinkIdx)
              == spans + [RenderSpan(line[i], currentIdx, selectedLinkIdx)];
          var s := line[i];
          if s.style.fg == Some(LINK_COLOR_WEB) || s.style.fg == Some(LINK_COLOR_IMG) {
            if currentIdx == selectedLinkIdx {
              s := Highlight(s);
            }
            currentIdx := currentIdx + 1;
          }
          spans := spans + [s];
        }
        assert line[..|line|] == line;
        RenderLinesStep(contentLines, j, selectedLinkIdx);
        rendered := rendered + [spans];
      }
      assert contentLines[..|contentLines|] == contentLines;
      OverlayHighlights(contentLines, selectedLinkIdx);
    }
  }
}
