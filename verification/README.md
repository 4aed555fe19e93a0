# Voyager text browser: the session and its content model

A Dafny model of the core of a terminal web browser written in Rust. The browser
fetches a page, and html2text renders it into "rich lines" of annotated text. The
browser turns those into styled lines and an ordered list of links and images. The
user moves a selection over the links, opens them, goes back through a history
stack and previews images as text art.

The model covers these parts:

- **`Types`** (`types.dfy`): the vocabulary. It has terminal colours and styles,
  spans and lines, html2text's annotations, link data, modes and key codes.
- **`Convert`** (`convert.dfy`): the conversion loop of `fetch_page`.
  - Every link or image gives a dark-grey label `[k]` and a span in the link colour
    of its type. It also adds one entry to the link list.
  - The central property is `LinksIndexed`. In the converted content, the span with
    `c` link-coloured spans before it is link `c`, drawn in its type's style and
    preceded by the label `[c]`.
  - `LinkedStrings` lists the tagged strings of a page that carry a link or an
    image, in document order. Link `c` is the link of the `c`-th of them, and the
    `c`-th link-coloured span shows its text (`LinksFrom`, `TextsIndexed`).
- **`Overlay`** (`overlay.dfy`): what `render_content` draws. The selected link is
  found again by counting link-coloured spans, and gets a yellow-on-black bold
  highlight.
- **`AsciiArt`** (`ascii_art.dfy`): the quantization of a greyscale preview onto
  the 14-glyph ramp.
- **`Session`** (`session.dfy`): the `App` object.
  - It is a class with the source's fields. Its methods `Navigate`, `FetchPage`
    and `PreviewImage` update the fields in place. `RenderContent` only reads
    them and returns the drawn lines.
  - Each method is specified by a function on the `State` value that the ghost
    `Snapshot()` returns. The lemmas beside those functions state what the
    operations promise: the validity invariant, the stack bookkeeping, and what
    stays untouched.
- **`EventLoop`** (`event_loop.dfy`): the key dispatch of `main`.
  - `Step` specifies one key press on a `State`. `HandleKey` performs it on an
    `App`.
  - A `?` on a failed fetch or preview ends the program, and so does the command
    `q`. The returned `Flow` (`Continue`, `Exit`, `Fail`) says which happened.

Some collaborators cannot be modelled directly: the network, html2text, the url
crate's `join` and the image decoder and resizer. They are parameters, gathered in
the datatype `Session.Web` as function values:

- `page(url)`: the whole fetch-and-render pipeline. It gives `None` when the
  client, the request, the base-URL parse or the body decoding fails.
- `join(base, reference)`: the url crate's join.
- `picture(url)`: the download, decode and resize to 80 greyscale columns.

Behaviour of the code worth knowing:

- There is no `forward` command and no `quit`/`f` aliases. Any other text in the
  command line does nothing: no status message is shown.
- `navigate` pushes onto `history`, clears `future` and sets the address before the
  fetch. So a failed fetch leaves those changes in place: it is not
  all-or-nothing.
- `navigate(A)`, `navigate(B)`, `back` leaves `future == [B]`.
- With three links, three "next" presses from 0 return to 0; a fourth lands on 1.
- Esc in Command mode keeps the typed text; the next `:` clears it.
- The preview height is the float computation of `preview_image`, truncated, not
  rounded. In the model it is whatever the `picture` collaborator returns.

## Model

| member | source | states |
|---|---|---|
| Convert.AnnotationLink | src/app.rs:72-80 | an annotation designates a link exactly when it is a `Link` or an `Image` |
| Convert.AnnotationLinkResolves | src/app.rs:73-80 | a link's address is the joined URL when the join succeeds and the raw reference otherwise; `Link` gives a web link, `Image` an image link |
| Convert.LastLinkNone | src/app.rs:69-84 | after the annotation loop, `current_link` is `None` exactly when no annotation is a link or an image |
| Convert.LastLinkWins | src/app.rs:71-84 | when several annotations are links or images, the last one decides `current_link` |
| Convert.ReadAnnotations | src/app.rs:68-84 | the annotation loop yields BOLD exactly when `Strong` is present, and the last link or image as `current_link` |
| Convert.Decimal | src/app.rs:87 | the label number is written as a non-empty string of decimal digits |
| Convert.DecimalRoundTrip | src/app.rs:87 | reading the label's digits back gives the link number |
| Convert.LabelsDistinct | src/app.rs:87-88 | different link numbers get different labels |
| Convert.LinkStyle | src/app.rs:90-93 | a web link is drawn in the web link colour and underlined, an image in the image link colour and italic, with no background and no other modifier |
| Convert.TaggedShape | src/app.rs:86-99 | a tagged string without a link gives one span with its own text in the default style, plus BOLD when `Strong`, and no link; one with a link gives the label `[k]` and the text in its type's link style, and exactly that link |
| Convert.ConvertOneLine | src/app.rs:65-101 | the loop over one rich line keeps the links already found, appends this line's links in order with the counter equal to the list's length, and each new link-coloured span is the new link of the same rank, after its label, and shows the text of the tagged string that link came from |
| Convert.ConvertRichLines | src/app.rs:58-102 | the conversion gives one content line per rich line; its link-coloured spans correspond one to one, in order, with the links (the c-th is link c, in its type's style, after the label `[c]`); link c is the link of the c-th tagged string that carries one, and the c-th link-coloured span shows that string's text |
| Convert.PageIndexed | src/app.rs:58-102 | the same one-line-per-rich-line, link-correspondence and link-source properties, for the conversion function on every input |
| Convert.LineSources | src/app.rs:65-101 | within one rich line, the c-th new link is the link of the c-th tagged string that carries one, and the c-th link-coloured span shows that string's text |
| Convert.PageSources | src/app.rs:58-102 | over a whole page, link c is the link of the c-th tagged string that carries one, and the c-th link-coloured span shows that string's text |
| Overlay.Highlight | src/app.rs:148 | the highlight keeps the text, sets a black foreground and a yellow background, adds BOLD to the span's own modifiers, and so takes the span out of the link colours |
| Overlay.RenderSpans | src/app.rs:144-153 | drawing a line keeps its number of spans |
| Overlay.RenderKeepsText | src/app.rs:145-152 | drawing changes no text: each drawn span has the text of its span |
| Overlay.RenderLines | src/app.rs:139-157 | the drawn content has as many lines as the content, each with as many spans |
| Overlay.RenderFlatten | src/app.rs:141-155 | drawing line by line with one counter that runs across lines is the same as drawing all spans in document order |
| Overlay.HighlightsSelected | src/app.rs:146-150 | when the selection is below the number of link-coloured spans, exactly one span changes: the link-coloured span with `selected` link-coloured spans before it, which gets the highlight |
| Overlay.HighlightsNothing | src/app.rs:146-150 | a selection at or past the number of link-coloured spans changes nothing |
| Overlay.OverlayHighlights | src/app.rs:139-157 | the two cases above, for whole content lines read in document order |
| AsciiArt.RampIndex | src/app.rs:129 | the glyph index of every sample is inside the ramp |
| AsciiArt.RampMonotone | src/app.rs:129 | a brighter sample never gets a sparser glyph |
| AsciiArt.RampEnds | src/app.rs:123-130 | black is a space and white is `@`; `@` is used for 255 only and the space for every sample below 20 |
| AsciiArt.ArtOf | src/app.rs:123-133 | the preview has one row per image row, each of 80 glyphs, all taken from the ramp |
| AsciiArt.UniformImage | src/app.rs:125-133 | an image of one brightness gives a preview of one glyph |
| AsciiArt.Quantize | src/app.rs:123-133 | the nested loop computes exactly `ArtOf` of the image |
| Session.WithScheme | src/app.rs:40-42 | the address always has a scheme; it is unchanged exactly when it already starts with `http://` or `https://`, and otherwise gets `https://` in front |
| Session.FetchedValid | src/app.rs:51-110 | a fetch keeps the session valid and fails exactly when the collaborator fails; on failure only the status changes; on success the content has one line per rich line and the selection and scroll are 0; nothing outside content, links, selection, scroll and status changes |
| Session.NavigateBookkeeping | src/app.rs:39-49 | navigate keeps the session valid, sets the defaulted address, pushes the old address when it is not empty, and empties `future`, whether or not the fetch succeeds; a failed fetch leaves content, links and scroll as they were |
| Session.BackKeepsStackSizes | src/main.rs:59-65 | `back` with a non-empty `history` pops its last address and makes it current, and pushes the address it leaves onto `future`, keeping the total size of the two stacks; with an empty `history` it changes nothing |
| Session.NavigateNavigateBack | src/main.rs:59-65 | navigate to A, then to B, then back: the address is A again, `future` holds only B, and `history` is as after the first step |
| Session.NavigateAfterBackClearsFuture | src/app.rs:46 | a navigation after `back` empties `future` |
| Session.PreviewedKeepsContent | src/app.rs:112-137 | a preview keeps the session valid, fails exactly when the collaborator fails, changes only the preview and the status, and on success shows one text row per image row |
| Session.App.constructor | src/app.rs:23-37 | a new session is valid: start address, no content, no links, selection 0, Normal mode, empty stacks, no preview |
| Session.App.FetchPage | src/app.rs:51-110 | the fields after `fetch_page` are `Fetched` of the fields before, and the session stays valid |
| Session.App.Navigate | src/app.rs:39-49 | the fields after `navigate` are `Navigated` of the fields before, and the session stays valid |
| Session.App.PreviewImage | src/app.rs:112-137 | the fields after `preview_image` are `Previewed` of the fields before, and the session stays valid |
| Session.App.RenderContent | src/app.rs:139-157 | the nested loop draws `RenderLines` of the content; read in document order this is the overlay of `OverlayHighlights` |
| EventLoop.ParseCommand | src/main.rs:56-65 | `q` quits; a command starting with `url ` opens the rest; `back` and `b` go back; each in both directions |
| EventLoop.NoForwardCommand | src/main.rs:56-65 | `quit`, `f` and `forward` are not commands |
| EventLoop.NextLink | src/main.rs:41-43 | the next selection is a valid index |
| EventLoop.PrevLink | src/main.rs:44-46 | the previous selection is a valid index |
| EventLoop.NextPrevInverse | src/main.rs:41-46 | 'l' and 'h' undo each other |
| EventLoop.AdvanceWraps | src/main.rs:41-43 | k presses of 'l' move the selection k places modulo the number of links |
| EventLoop.ThreeLinksCycle | src/main.rs:41-46 | with three links, three presses return to the first, a fourth gives the second, and 'h' from the first gives the last |
| EventLoop.ScrollDown | src/main.rs:39 | 'j' adds one to the scroll offset and stops at 65535 |
| EventLoop.ScrollUp | src/main.rs:40 | 'k' subtracts one from the scroll offset and stops at 0 |
| EventLoop.DropLast | src/main.rs:70 | Backspace removes the last character and leaves an empty buffer empty |
| EventLoop.StepKeepsValid | src/main.rs:28-72 | every key keeps the session valid: the selection stays in range and the link correspondence holds |
| EventLoop.PreviewTakesOnlyEsc | src/main.rs:28-34 | while a preview is open, Esc closes it and sets the status, and any other key changes nothing |
| EventLoop.FutureOnlyGrowsByBack | src/main.rs:47-65 | a key leaves `future` as it was, empties it, or pushes the current address; only `back` in Command mode pushes, and a non-empty `future` is emptied only by Enter on a web link in Normal mode or by a `url` command |
| EventLoop.ActivateImageKeepsPage | src/main.rs:47-51 | Enter on an image link keeps the address, the stacks, the content and the links; it succeeds exactly when the image can be loaded, and then a preview is open |
| EventLoop.CommandEnterReturnsToNormal | src/main.rs:55-67 | after Enter in Command mode the loop continues in Normal mode, ends without change exactly for `q`, or ends with an error; an unknown command only returns to Normal mode |
| EventLoop.CommandEscKeepsBuffer | src/main.rs:68 | Esc in Command mode returns to Normal mode and keeps the typed text |
| EventLoop.HandleKey | src/main.rs:28-72 | one pass of the loop body changes the session as `Step` says and keeps it valid |
| EventLoop.NormalKey | src/main.rs:37-53 | a Normal-mode key changes the session as `NormalStep` says |
| EventLoop.CommandKey | src/main.rs:54-72 | a Command-mode key changes the session as `CommandStep` says |
| EventLoop.Submit | src/main.rs:55-67 | Enter in Command mode runs the command as `Submitted` says |

## Left out

- The network, the HTTP client, html2text, `Url::parse` and `Url::join`, and the
  image decoder and resizer are outside the model. They appear only as the `page`,
  `join` and `picture` functions of `Session.Web`. Their failures are one `None`,
  without the error values.
- The preview height `(80 * (h / w) * 0.5) as u32` is f32 arithmetic and is not
  modelled. The `picture` collaborator returns the resized image, of any height.
- Terminal setup and teardown, drawing the frame (src/ui.rs is not part of this
  model), reading events, and non-key events are not modelled.
- The startup fetch in `main` before the loop (src/main.rs:22) and the loop itself
  are not modelled. `HandleKey` is one pass of the loop body.
- Styles keep a foreground, a background and the added modifiers. ratatui's removed
  modifiers and underline colour are never set here and are left out. A line is its
  sequence of spans: the line-level style and alignment are always the defaults.
- Strings are sequences of characters. `cmd[4..]` slices bytes in Rust, but it cuts
  after the four ASCII characters `url `, so the two agree.
- The `usize` counters (`link_counter`, `current_idx`, the selection) are unbounded
  naturals, because a page cannot hold enough links to overflow them. The `u16`
  scroll offset is modelled with its saturating arithmetic.
- Session.App.PreviewImage, Session.App.Navigate, Session.App.FetchPage,
  EventLoop.HandleKey, EventLoop.NormalKey, EventLoop.CommandKey and
  EventLoop.Submit require the session invariant `Valid()`. Every session has it
  from its construction on, and every key keeps it (`EventLoop.StepKeepsValid`).
  The Rust code states no precondition.
