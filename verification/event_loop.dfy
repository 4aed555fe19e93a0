/** The key dispatch of the browser's event loop (src/main.rs:28-72): while a
    preview is open only Esc does anything; in Normal mode keys scroll, cycle
    the selection, open the command line and activate the selected link; in
    Command mode keys edit the command line and Enter runs it.

    `Step` specifies one key press on a `State`; `HandleKey` performs it on an
    `App` in place. An error from a fetch or a preview ends the program (the
    `?` of `main`), and so does the command `q`: `Flow` says which. */
module EventLoop {
  import opened Types
  import opened Convert
  import opened Session

  /** What the loop does after a key: read the next one, leave normally
      (`q`), or leave with the error of a failed fetch or preview. */
  datatype Flow = Continue | Exit | Fail

  /** The commands the command line knows, and everything else. */
  datatype ParsedCommand = Quit | OpenUrl(address: string) | GoBack | Ignored

  /** How a submitted command line is read: "q" quits, "url X" opens X,
      "back" and "b" go back, and any other text does nothing. */
  function ParseCommand(cmd: string): (c: ParsedCommand)
    ensures c == Quit <==> cmd == "q"
    ensures c.OpenUrl? <==> StartsWith(cmd, "url ")
    ensures c.OpenUrl? ==> cmd == "url " + c.address
    ensures c == GoBack <==> cmd == "back" || cmd == "b"
  {
    if cmd == "q" then Quit
    else if StartsWith(cmd, "url ") then
      assert cmd[0] == 'u' != "back"[0];
      OpenUrl(cmd[4..])
    else if cmd == "back" || cmd == "b" then GoBack
    else Ignored
  }

  /** "quit", "f" and "forward" are not commands. */
  lemma NoForwardCommand()
    ensures ParseCommand("quit") == Ignored
    ensures ParseCommand("f") == Ignored
    ensures ParseCommand("forward") == Ignored
  {
    assert "quit"[0] != 'u' && "forward"[0] != 'u';
  }

  /** 'l' and Tab: the next link, wrapping from the last to the first. */
  function NextLink(idx: nat, count: nat): (r: nat)
    requires idx < count
    ensures r < count
  {
    (idx + 1) % count
  }

  /** 'h': the previous link, wrapping from the first to the last. */
  function PrevLink(idx: nat, count: nat): (r: nat)
    requires idx < count
    ensures r < count
  {
    if idx == 0 then count - 1 else idx - 1
  }

  /** Stepping forward and stepping back undo each other. */
  lemma NextPrevInverse(idx: nat, count: nat)
    requires idx < count
    ensures PrevLink(NextLink(idx, count), count) == idx
    ensures NextLink(PrevLink(idx, count), count) == idx
  {
    NextLinkWraps(idx, count);
    NextLinkWraps(PrevLink(idx, count), count);
  }

  /** With three links, three presses of 'l' from the first come back to it,
      a fourth lands on the second, and 'h' from the first lands on the last. */
  lemma ThreeLinksCycle()
    ensures Advance(0, 3, 3) == 0 && Advance(0, 3, 4) == 1
    ensures PrevLink(0, 3) == 2
  {
    AdvanceWraps(0, 3, 3);
    AdvanceWraps(0, 3, 4);
  }

  /** The next link is the following one, or the first after the last. */
  lemma NextLinkWraps(idx: nat, count: nat)
    requires idx < count
    ensures NextLink(idx, count) == if idx + 1 == count then 0 else idx + 1
  {
    if idx + 1 == count {
      ModUnique(idx + 1, count, 1, 0);
    } else {
      ModUnique(idx + 1, count, 0, idx + 1);
    }
  }

  /** `k` presses of 'l' from `idx`. */
  function Advance(idx: nat, count: nat, k: nat): (r: nat)
    requires idx < count
    ensures r < count
  {
    if k == 0 then idx else NextLink(Advance(idx, count, k - 1), count)
  }

  /** `k` presses of 'l' move the selection `k` places round the links, so
      `count` presses come back to where they started. */
  lemma {:induction false} AdvanceWraps(idx: nat, count: nat, k: nat)
    requires idx < count
    ensures Advance(idx, count, k) == (idx + k) % count
  {
    if k > 0 {
      AdvanceWraps(idx, count, k - 1);
      var m := (idx + k - 1) % count;
      ModStep(idx + k - 1, count);
      ModStep(m, count);
      ModUnique(m, count, 0, m);
    }
  }

  /** Adding one to a number adds one to its remainder, wrapping at the divisor. */
  lemma ModStep(a: nat, n: nat)
    requires 0 < n
    ensures (a + 1) % n == if a % n + 1 == n then 0 else a % n + 1
  {
    var q, m := a / n, a % n;
    assert a == n * q + m;
    if m + 1 == n {
      assert a + 1 == n * (q + 1) + 0;
      ModUnique(a + 1, n, q + 1, 0);
    } else {
      ModUnique(a + 1, n, q, m + 1);
    }
  }

  /** The remainder is the only value below the divisor that completes a multiple. */
  lemma ModUnique(a: nat, n: nat, q: int, r: int)
    requires 0 <= r < n && a == n * q + r
    ensures a % n == r
  {
    var q', r' := a / n, a % n;
    assert a == n * q' + r';
    if q < q' {
      assert n * q' == n * q + n * (q' - q);
      MulAtLeast(n, q' - q);
    } else if q' < q {
      assert n * q == n * q' + n * (q - q');
      MulAtLeast(n, q - q');
    }
  }

  lemma {:induction false} MulAtLeast(n: nat, d: int)
    requires d >= 1
    ensures n * d >= n
  {
    assert n * d == n * (d - 1) + n;
    if d > 1 { MulAtLeast(n, d - 1); }
  }

  /** 'j': one line down, stopping at the largest offset. */
  function ScrollDown(s: u16): (r: u16)
    ensures s <= r && r as int <= s as int + 1
    ensures r == s <==> s == U16_MAX
  {
    if s == U16_MAX then s else s + 1
  }

  /** 'k': one line up, stopping at 0. */
  function ScrollUp(s: u16): (r: u16)
    ensures r <= s && s as int <= r as int + 1
    ensures r == s <==> s == 0
  {
    if s == 0 then s else s - 1
  }

  /** Rust's `String::pop`: the last character goes, and an empty buffer stays empty. */
  function DropLast(buffer: string): (r: string)
    ensures buffer == [] ==> r == []
    ensures buffer != [] ==> r + [buffer[|buffer| - 1]] == buffer
  {
    if buffer == [] then [] else buffer[..|buffer| - 1]
  }

  /** A failed fetch or preview ends the loop with its error. */
  function Outcome(ok: bool): Flow {
    if ok then Continue else Fail
  }

  /** One key in Normal mode. */
  function NormalStep(s: State, key: Key, web: Web): (State, Flow)
    requires SelectionInRange(s)
  {
    match key
    case Char(':') => (s.(mode := Command, commandBuffer := []), Continue)
    case Char('j') => (s.(scroll := ScrollDown(s.scroll)), Continue)
    case Char('k') => (s.(scroll := ScrollUp(s.scroll)), Continue)
    case Char('l') | Tab =>
      (if s.links != [] then s.(selectedLinkIdx := NextLink(s.selectedLinkIdx, |s.links|)) else s, Continue)
    case Char('h') =>
      (if s.links != [] then s.(selectedLinkIdx := PrevLink(s.selectedLinkIdx, |s.links|)) else s, Continue)
    case Enter =>
      if s.links == [] then (s, Continue)
      else
        var link := s.links[s.selectedLinkIdx];
        var (ok, t) := if link.linkType == LinkType.Image then Previewed(s, link.url, web) else Navigated(s, link.url, web);
        (t, Outcome(ok))
    case _ => (s, Continue)
  }

  /** Enter in Command mode: the typed command runs; unless it quits or
      fails, the session returns to Normal mode. */
  function Submitted(s: State, web: Web): (State, Flow) {
    match ParseCommand(s.commandBuffer)
    case Quit => (s, Exit)
    case OpenUrl(address) =>
      var (ok, t) := Navigated(s, address, web);
      (if ok then t.(mode := Normal) else t, Outcome(ok))
    case GoBack =>
      if s.history == [] then (s.(mode := Normal), Continue)
      else
        var (ok, t) := Fetched(WentBack(s), web);
        (if ok then t.(mode := Normal) else t, Outcome(ok))
    case Ignored => (s.(mode := Normal), Continue)
  }

  /** One key in Command mode. */
  function CommandStep(s: State, key: Key, web: Web): (State, Flow) {
    match key
    case Enter => Submitted(s, web)
    case Esc => (s.(mode := Normal), Continue)
    case Char(c) => (s.(commandBuffer := s.commandBuffer + [c]), Continue)
    case Backspace => (s.(commandBuffer := DropLast(s.commandBuffer)), Continue)
    case _ => (s, Continue)
  }

  /** One key press: the new session and what the loop does next. */
  function Step(s: State, key: Key, web: Web): (State, Flow)
    requires SelectionInRange(s)
  {
    if s.imagePreview.Some? then
      (if key == Esc then s.(imagePreview := None, status := "Preview closed") else s, Continue)
    else if s.mode == Normal then NormalStep(s, key, web)
    else CommandStep(s, key, web)
  }

  /** Every key keeps the session valid: the selection stays in range and the
      content's link-coloured spans keep corresponding to the links. */
  lemma StepKeepsValid(s: State, key: Key, web: Web)
    requires StateValid(s)
    ensures StateValid(Step(s, key, web).0)
  {
    if s.imagePreview.None? {
      if s.mode == Normal {
        if key == Enter && s.links != [] {
          var link := s.links[s.selectedLinkIdx];
          if link.linkType == LinkType.Image {
            PreviewedKeepsContent(s, link.url, web);
          } else {
            NavigateBookkeeping(s, link.url, web);
          }
        }
      } else if key == Enter {
        match ParseCommand(s.commandBuffer) {
          case OpenUrl(address) => NavigateBookkeeping(s, address, web);
          case GoBack => if s.history != [] { FetchedValid(WentBack(s), web); }
          case _ =>
        }
      }
    }
  }

  /** While a preview is open, Esc closes it and every other key changes nothing. */
  lemma PreviewTakesOnlyEsc(s: State, key: Key, web: Web)
    requires SelectionInRange(s) && s.imagePreview.Some?
    ensures Step(s, key, web).1 == Continue
    ensures key == Esc ==> Step(s, key, web).0 == s.(imagePreview := None, status := "Preview closed")
    ensures key != Esc ==> Step(s, key, web).0 == s
  {
  }

  /** Only `back` adds to `future`, one address at a time, and only a
      navigation empties it; no key takes an address from it. */
  lemma FutureOnlyGrowsByBack(s: State, key: Key, web: Web)
    requires SelectionInRange(s)
    ensures var t := Step(s, key, web).0;
      t.future == s.future || t.future == [] || t.future == s.future + [s.currentUrl]
    ensures var t := Step(s, key, web).0;
      t.future == s.future + [s.currentUrl] ==>
        s.imagePreview.None? && s.mode == Command && key == Enter && ParseCommand(s.commandBuffer) == GoBack
    ensures var t := Step(s, key, web).0;
      s.future != [] && t.future == [] ==>
        s.imagePreview.None? && key == Enter &&
        ((s.mode == Normal && s.links != [] && s.links[s.selectedLinkIdx].linkType == LinkType.Web) ||
         (s.mode == Command && ParseCommand(s.commandBuffer).OpenUrl?))
  {
    var t := Step(s, key, web).0;
    if t.future == s.future + [s.currentUrl] && t.future != s.future {
      assert s.imagePreview.None?;
    }
  }

  /** Enter on an image link opens the preview and leaves the address, the
      stacks and the content alone. */
  lemma ActivateImageKeepsPage(s: State, web: Web)
    requires StateValid(s) && s.imagePreview.None? && s.mode == Normal && s.links != []
    requires s.links[s.selectedLinkIdx].linkType == LinkType.Image
    ensures var (t, flow) := Step(s, Enter, web);
      t.currentUrl == s.currentUrl && t.history == s.history && t.future == s.future &&
      t.contentLines == s.contentLines && t.links == s.links &&
      (flow == Continue <==> web.picture(s.links[s.selectedLinkIdx].url).Some?) &&
      (flow == Continue ==> t.imagePreview.Some?)
  {
    PreviewedKeepsContent(s, s.links[s.selectedLinkIdx].url, web);
  }

  /** Every key but `q` that the loop survives leaves Command mode through
      Enter: after Enter in Command mode the session is in Normal mode unless
      the loop ends. */
  lemma CommandEnterReturnsToNormal(s: State, web: Web)
    requires SelectionInRange(s) && s.imagePreview.None? && s.mode == Command
    ensures var (t, flow) := Step(s, Enter, web);
      (flow == Continue ==> t.mode == Normal) &&
      (flow == Exit <==> s.commandBuffer == "q") &&
      (flow == Exit ==> t == s)
    ensures ParseCommand(s.commandBuffer) == Ignored ==> Step(s, Enter, web) == (s.(mode := Normal), Continue)
  {
  }

  /** Esc in Command mode returns to Normal mode and keeps the typed text. */
  lemma CommandEscKeepsBuffer(s: State, web: Web)
    requires SelectionInRange(s) && s.imagePreview.None? && s.mode == Command
    ensures Step(s, Esc, web) == (s.(mode := Normal), Continue)
    ensures Step(s, Esc, web).0.commandBuffer == s.commandBuffer
  {
  }

  /** The loop body for one key, on the session in place. */
  method HandleKey(app: App, key: Key, web: Web) returns (flow: Flow)
    requires app.Valid()
    modifies app
    ensures app.Valid()
    ensures (app.Snapshot(), flow) == Step(old(app.Snapshot()), key, web)
  {
    StepKeepsValid(app.Snapshot(), key, web);
    if app.imagePreview.Some? {
      if key == Esc {
        app.imagePreview := None;
        app.status := "Preview closed";
      }
      return Continue;
    }
    match app.mode {
      case Normal => flow := NormalKey(app, key, web);
      case Command => flow := CommandKey(app, key, web);
    }
  }

  /** A key in Normal mode, on the session in place. */
  method NormalKey(app: App, key: Key, web: Web) returns (flow: Flow)
    requires app.Valid()
    modifies app
    ensures (app.Snapshot(), flow) == NormalStep(old(app.Snapshot()), key, web)
  {
    flow := Continue;
    match key {
      case Char(':') =>
        app.mode := Command;
        app.commandBuffer := [];
      case Char('j') =>
        app.scroll := if app.scroll == U16_MAX then app.scroll else app.scroll + 1;
      case Char('k') =>
        app.scroll := if app.scroll == 0 then app.scroll else app.scroll - 1;
      case Char('l') | Tab =>
        if app.links != [] {
          app.selectedLinkIdx := (app.selectedLinkIdx + 1) % |app.links|;
        }
      case Char('h') =>
        if app.links != [] {
          app.selectedLinkIdx := if app.selectedLinkIdx == 0 then |app.links| - 1 else app.selectedLinkIdx - 1;
        }
      case Enter =>
        if app.links != [] {
          var link := app.links[app.selectedLinkIdx];
          var ok;
          if link.linkType == LinkType.Image {
            ok := app.PreviewImage(link.url, web);
          } else {
            ok := app.Navigate(link.url, web);
          }
          flow := Outcome(ok);
        }
      case _ =>
    }
  }

  /** A key in Command mode, on the session in place. */
  method CommandKey(app: App, key: Key, web: Web) returns (flow: Flow)
    requires app.Valid()
    modifies app
    ensures (app.Snapshot(), flow) == CommandStep(old(app.Snapshot()), key, web)
  {
    flow := Continue;
    match key {
      case Enter =>
        flow := Submit(app, web);
      case Esc =>
        app.mode := Normal;
      case Char(c) =>
        app.commandBuffer := app.commandBuffer + [c];
      case Backspace =>
        if app.commandBuffer != [] {
          app.commandBuffer := app.commandBuffer[..|app.commandBuffer| - 1];
        }
      case _ =>
    }
  }

  /** Enter in Command mode, on the session in place. */
  method Submit(app: App, web: Web) returns (flow: Flow)
    requires app.Valid()
    modifies app
    ensures (app.Snapshot(), flow) == Submitted(old(app.Snapshot()), web)
  {
    ghost var before := app.Snapshot();
    var cmd := app.commandBuffer;
    if cmd == "q" {
      return Exit;
    } else if StartsWith(cmd, "url ") {
      var ok := app.Navigate(cmd[4..], web);
      if !ok {
        return Fail;
      }
    } else if cmd == "back" || cmd == "b" {
      if app.history != [] {
        var prev := app.history[|app.history| - 1];
        app.history := app.history[..|app.history| - 1];
        app.future := app.future + [app.currentUrl];
        app.currentUrl := prev;
        assert app.Snapshot() == WentBack(before);
        var ok := app.FetchPage(web);
        if !ok {
          return Fail;
        }
      }
    }
    app.mode := Normal;
    return Continue;
  }
}
