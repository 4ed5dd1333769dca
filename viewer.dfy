/** The diff viewer's session controller: the input text, the output region,
    the current layout with its two buttons, and the two storage entries it
    keeps. Each operation is first a function from the session before to the
    session after (`...Step`); class Viewer performs the same operations by
    updating its fields and the shared store one assignment at a time. */
module DiffViewer {
  import opened Results
  import opened Text
  import opened Storage
  import opened FileUpload

  const LayoutKey: string := "patchReader_layout"
  const ContentKey: string := "patchReader_content"

  /** The text of the placeholder panel shown when there is nothing to render. */
  const PlaceholderText: string := "输入或上传 patch/diff 内容后，渲染结果将显示在这里"
  const RenderFailedPrefix: string := "渲染失败: "
  const ReadFailedPrefix: string := "文件读取失败: "
  const LibraryMissing: string := "Diff2Html library not loaded"

  datatype Layout = SideBySide | LineByLine

  /** The name under which a layout is stored and handed to the renderer. */
  function LayoutName(l: Layout): string {
    match l
    case SideBySide => "side-by-side"
    case LineByLine => "line-by-line"
  }

  /** The whitelist applied to a stored layout: only the two exact names. */
  function ParseLayout(s: string): (r: Option<Layout>)
    ensures r.Some? <==> s == "side-by-side" || s == "line-by-line"
    ensures r.Some? ==> LayoutName(r.value) == s
  {
    if s == "side-by-side" then Some(SideBySide)
    else if s == "line-by-line" then Some(LineByLine)
    else None
  }

  /** A stored layout name reads back as the layout that was stored. */
  lemma LayoutRoundTrip(l: Layout)
    ensures ParseLayout(LayoutName(l)) == Some(l)
  {
  }

  /** What the output region shows: the placeholder panel, the renderer's
      markup, or an error panel holding a message (escaped when shown). */
  datatype Output = Placeholder | Html(markup: string) | ErrorMessage(message: string)

  /** The Diff2Html library: absent from the page, or present with a call that
      turns a diff and a layout into markup or throws with a message. */
  datatype Renderer = Missing | Present(html: (string, Layout) -> Result<string, string>)

  function Render(renderer: Renderer, diff: string, layout: Layout): (r: Result<string, string>)
    ensures renderer.Missing? ==> r == Err(LibraryMissing)
    ensures renderer.Present? ==> r == renderer.html(diff, layout)
  {
    match renderer
    case Missing => Err(LibraryMissing)
    case Present(html) => html(diff, layout)
  }

  datatype Session = Session(
    input: string,
    output: Output,
    layout: Layout,
    sideBySideActive: bool,
    lineByLineActive: bool,
    saved: map<string, string>)

  /** The store after saveState: the layout is written, then the untrimmed
      input; one try covers both, so a refused first write skips the second. */
  function SaveSnapshot(p: Policy, saved: map<string, string>, layout: Layout, input: string): map<string, string> {
    if Accepts(p, saved, LayoutKey, LayoutName(layout))
    then Written(p, saved[LayoutKey := LayoutName(layout)], ContentKey, input)
    else saved
  }

  function Saved(p: Policy, s: Session): Session {
    s.(saved := SaveSnapshot(p, s.saved, s.layout, s.input))
  }

  /** renderDiff. */
  function RenderStep(renderer: Renderer, p: Policy, s: Session): Session {
    var diff := Trim(s.input);
    if diff == [] then s.(output := Placeholder)
    else match Render(renderer, diff, s.layout)
      case Ok(html) => Saved(p, s.(output := Html(html)))
      case Err(message) => s.(output := ErrorMessage(RenderFailedPrefix + message))
  }

  /** setLayout(layout, rerender). */
  function SetLayoutStep(renderer: Renderer, p: Policy, s: Session, layout: Layout, rerender: bool): Session {
    var switched := s.(layout := layout, sideBySideActive := layout == SideBySide, lineByLineActive := layout != SideBySide);
    var s' := Saved(p, switched);
    if rerender && !IsBlank(s'.input) then RenderStep(renderer, p, s') else s'
  }

  /** clearAll. */
  function ClearStep(p: Policy, s: Session): Session {
    s.(input := "", output := Placeholder, saved := Removed(p, s.saved, ContentKey))
  }

  /** loadSavedState: the layout read, the whitelist and setLayout(.., false),
      then the content read from the store as setLayout's save left it. */
  function LoadStep(renderer: Renderer, p: Policy, s: Session): Session {
    match Read(p, s.saved, LayoutKey)
    case Err(_) => s
    case Ok(savedLayout) =>
      if savedLayout.Some? && ParseLayout(savedLayout.value).Some?
      then RestoreContentStep(renderer, p, SetLayoutStep(renderer, p, s, ParseLayout(savedLayout.value).value, false))
      else RestoreContentStep(renderer, p, s)
  }

  /** The second half of loadSavedState: a non-empty stored content becomes
      the input and is rendered. */
  function RestoreContentStep(renderer: Renderer, p: Policy, s: Session): Session {
    match Read(p, s.saved, ContentKey)
    case Err(_) => s
    case Ok(savedContent) =>
      if savedContent.Some? && savedContent.value != ""
      then RenderStep(renderer, p, s.(input := savedContent.value))
      else s
  }

  /** handleFileUpload, once every read has settled. */
  function UploadStep(renderer: Renderer, p: Policy, s: Session, files: Option<seq<FileRead>>): Session {
    if files.None? || files.value == [] then s
    else match Gather(files.value)
      case Err(message) => s.(output := ErrorMessage(ReadFailedPrefix + message))
      case Ok(contents) => Saved(p, RenderStep(renderer, p, s.(input := Combine(contents))))
  }

  /** The debounce and paste timer callbacks: render only non-blank input. */
  function AutoRenderStep(renderer: Renderer, p: Policy, s: Session): Session {
    if IsBlank(s.input) then s else RenderStep(renderer, p, s)
  }

  // ---------------------------------------------------------------------
  // Saving

  lemma KeysDistinct()
    ensures LayoutKey != ContentKey
  {
    assert LayoutKey[12] != ContentKey[12];
  }

  /** What saveState leaves in the store, by which writes completed; entries
      other than the layout and the content (the locale) are never touched. */
  lemma SaveOutcome(p: Policy, saved: map<string, string>, layout: Layout, input: string, key: string)
    ensures var after := SaveSnapshot(p, saved, layout, input);
            && (key != LayoutKey && key != ContentKey ==> (key in after <==> key in saved) && (key in saved ==> after[key] == saved[key]))
            && (!Accepts(p, saved, LayoutKey, LayoutName(layout)) ==> after == saved)
            && (Accepts(p, saved, LayoutKey, LayoutName(layout)) ==>
                  LayoutKey in after && after[LayoutKey] == LayoutName(layout)
                  && (Accepts(p, saved[LayoutKey := LayoutName(layout)], ContentKey, input) ==>
                        ContentKey in after && after[ContentKey] == input)
                  && (!Accepts(p, saved[LayoutKey := LayoutName(layout)], ContentKey, input) ==>
                        after == saved[LayoutKey := LayoutName(layout)]))
  {
    KeysDistinct();
  }

  /** Saving the same layout and input again changes nothing. */
  lemma SaveIdempotent(p: Policy, saved: map<string, string>, layout: Layout, input: string)
    ensures SaveSnapshot(p, SaveSnapshot(p, saved, layout, input), layout, input) == SaveSnapshot(p, saved, layout, input)
  {
    var name := LayoutName(layout);
    var once := SaveSnapshot(p, saved, layout, input);
    if Accepts(p, saved, LayoutKey, name) {
      var withLayout := saved[LayoutKey := name];
      if Accepts(p, withLayout, ContentKey, input) {
        assert once == withLayout[ContentKey := input];
        assert once[LayoutKey := name] == once;
        assert once[ContentKey := input] == once;
      } else {
        assert once == withLayout;
        assert once[LayoutKey := name] == once;
        assert withLayout[LayoutKey := name] == withLayout;
      }
    }
  }

  // ---------------------------------------------------------------------
  // renderDiff

  /** Blank input shows the placeholder and writes nothing. */
  lemma RenderBlank(renderer: Renderer, p: Policy, s: Session)
    requires IsBlank(s.input)
    ensures RenderStep(renderer, p, s) == s.(output := Placeholder)
  {
  }

  /** A successful render shows the renderer's markup for the trimmed input in
      the current layout, then saves the layout and the untrimmed input. */
  lemma RenderSucceeded(renderer: Renderer, p: Policy, s: Session, html: string)
    requires !IsBlank(s.input) && Render(renderer, Trim(s.input), s.layout) == Ok(html)
    ensures RenderStep(renderer, p, s) == s.(output := Html(html), saved := SaveSnapshot(p, s.saved, s.layout, s.input))
  {
  }

  /** A failed render shows the error and writes nothing. */
  lemma RenderFailed(renderer: Renderer, p: Policy, s: Session, message: string)
    requires !IsBlank(s.input) && Render(renderer, Trim(s.input), s.layout) == Err(message)
    ensures RenderStep(renderer, p, s) == s.(output := ErrorMessage(RenderFailedPrefix + message))
  {
  }

  /** Rendering again without an intervening change reproduces the same
      output and the same store. */
  lemma RenderIdempotent(renderer: Renderer, p: Policy, s: Session)
    ensures RenderStep(renderer, p, RenderStep(renderer, p, s)) == RenderStep(renderer, p, s)
  {
    if Trim(s.input) != [] && Render(renderer, Trim(s.input), s.layout).Ok? {
      RenderAgainAfterSuccess(renderer, p, s, Render(renderer, Trim(s.input), s.layout).value);
    }
  }

  lemma RenderAgainAfterSuccess(renderer: Renderer, p: Policy, s: Session, html: string)
    requires Trim(s.input) != [] && Render(renderer, Trim(s.input), s.layout) == Ok(html)
    ensures RenderStep(renderer, p, RenderStep(renderer, p, s)) == RenderStep(renderer, p, s)
  {
    var once := RenderStep(renderer, p, s);
    var m := SaveSnapshot(p, s.saved, s.layout, s.input);
    assert once == s.(output := Html(html), saved := m);
    SaveIdempotent(p, s.saved, s.layout, s.input);
    assert RenderStep(renderer, p, once) == once.(output := Html(html), saved := SaveSnapshot(p, m, s.layout, s.input));
  }

  /** renderDiff changes only the output region and, by saving, the store. */
  lemma RenderFrame(renderer: Renderer, p: Policy, s: Session)
    ensures var r := RenderStep(renderer, p, s);
            && r.input == s.input && r.layout == s.layout
            && r.sideBySideActive == s.sideBySideActive && r.lineByLineActive == s.lineByLineActive
            && (r.saved == s.saved || r.saved == SaveSnapshot(p, s.saved, s.layout, s.input))
  {
    var diff := Trim(s.input);
    if diff != [] {
      match Render(renderer, diff, s.layout)
      case Ok(html) =>
        assert RenderStep(renderer, p, s) == s.(output := Html(html), saved := SaveSnapshot(p, s.saved, s.layout, s.input));
      case Err(message) =>
        assert RenderStep(renderer, p, s) == s.(output := ErrorMessage(RenderFailedPrefix + message));
    }
  }

  /** A save that follows a render leaves the store as a single save would. */
  lemma SaveAfterRender(renderer: Renderer, p: Policy, s: Session)
    ensures SaveSnapshot(p, RenderStep(renderer, p, s).saved, s.layout, s.input) == SaveSnapshot(p, s.saved, s.layout, s.input)
  {
    RenderFrame(renderer, p, s);
    SaveIdempotent(p, s.saved, s.layout, s.input);
  }

  // ---------------------------------------------------------------------
  // setLayout

  /** After setLayout exactly one button is active, the one of the new layout;
      the input is kept and the layout and input are saved (a re-render saves
      the same pair again). */
  lemma SetLayoutSwitches(renderer: Renderer, p: Policy, s: Session, layout: Layout, rerender: bool)
    ensures var s' := SetLayoutStep(renderer, p, s, layout, rerender);
            && s'.layout == layout
            && s'.sideBySideActive == (layout == SideBySide)
            && s'.lineByLineActive == (layout == LineByLine)
            && s'.sideBySideActive != s'.lineByLineActive
            && s'.input == s.input
            && s'.saved == SaveSnapshot(p, s.saved, layout, s.input)
  {
    SaveIdempotent(p, s.saved, layout, s.input);
  }

  /** The output changes only through a re-render, which happens exactly when
      it is asked for and the input is not blank. */
  lemma SetLayoutOutput(renderer: Renderer, p: Policy, s: Session, layout: Layout, rerender: bool)
    ensures var s' := SetLayoutStep(renderer, p, s, layout, rerender);
            && (!rerender || IsBlank(s.input) ==> s'.output == s.output)
            && (rerender && !IsBlank(s.input) ==> s'.output == RenderStep(renderer, p, s.(layout := layout)).output)
  {
  }

  // ---------------------------------------------------------------------
  // clearAll

  /** clearAll empties the input, shows the placeholder and removes the stored
      content; the layout and the stored layout stay as they were. */
  lemma ClearResets(p: Policy, s: Session)
    ensures var s' := ClearStep(p, s);
            && s'.input == "" && s'.output == Placeholder && s'.layout == s.layout
            && (LayoutKey in s'.saved <==> LayoutKey in s.saved)
            && (LayoutKey in s.saved ==> s'.saved[LayoutKey] == s.saved[LayoutKey])
            && (p.enabled ==> ContentKey !in s'.saved)
            && (!p.enabled ==> s'.saved == s.saved)
  {
  }

  /** Rendering right after clearAll changes nothing. */
  lemma RenderAfterClear(renderer: Renderer, p: Policy, s: Session)
    ensures RenderStep(renderer, p, ClearStep(p, s)) == ClearStep(p, s)
  {
    assert Trim("") == [];
  }

  // ---------------------------------------------------------------------
  // loadSavedState

  /** With storage unavailable the layout read throws and nothing else runs. */
  lemma LoadUnavailable(renderer: Renderer, p: Policy, s: Session)
    requires !p.enabled
    ensures LoadStep(renderer, p, s) == s
  {
  }

  /** A stored layout outside the whitelist is ignored; the stored content, if
      not empty, is then put into the input and rendered. */
  lemma LoadWithoutValidLayout(renderer: Renderer, p: Policy, s: Session)
    requires p.enabled
    requires LayoutKey !in s.saved || ParseLayout(s.saved[LayoutKey]).None?
    ensures ContentKey in s.saved && s.saved[ContentKey] != "" ==>
              LoadStep(renderer, p, s) == RenderStep(renderer, p, s.(input := s.saved[ContentKey]))
    ensures ContentKey !in s.saved || s.saved[ContentKey] == "" ==> LoadStep(renderer, p, s) == s
  {
  }

  /** A whitelisted stored layout is applied without rendering, and its save
      runs before the content is read: when both writes go through, the
      content read back is the current input, not what was stored. For the
      empty input of a fresh page the stored diff is therefore never restored
      and the output is left alone. */
  lemma LoadOverwritesContent(renderer: Renderer, p: Policy, s: Session, layout: Layout)
    requires p.enabled && LayoutKey in s.saved && ParseLayout(s.saved[LayoutKey]) == Some(layout)
    requires Accepts(p, s.saved, LayoutKey, LayoutName(layout))
    requires Accepts(p, s.saved[LayoutKey := LayoutName(layout)], ContentKey, s.input)
    ensures var s' := LoadStep(renderer, p, s);
            && s'.layout == layout
            && s'.input == s.input
            && ContentKey in s'.saved && s'.saved[ContentKey] == s.input
            && (s.input == "" ==> s'.output == s.output)
  {
    var s1 := SetLayoutStep(renderer, p, s, layout, false);
    LoadAppliesLayout(renderer, p, s, layout);
    SetLayoutQuiet(renderer, p, s, layout);
    RestoreContent(renderer, p, s1);
    if s.input == "" {
      assert LoadStep(renderer, p, s) == s1;
    } else {
      assert s1.(input := s.input) == s1;
      assert LoadStep(renderer, p, s) == RenderStep(renderer, p, s1);
      RenderFrame(renderer, p, s1);
      SaveIdempotent(p, s.saved, layout, s.input);
      assert LoadStep(renderer, p, s).saved == s1.saved;
    }
  }

  /** A whitelisted stored layout is applied by setLayout(layout, false) before
      the content phase runs. */
  lemma LoadAppliesLayout(renderer: Renderer, p: Policy, s: Session, layout: Layout)
    requires p.enabled && LayoutKey in s.saved && ParseLayout(s.saved[LayoutKey]) == Some(layout)
    ensures LoadStep(renderer, p, s) == RestoreContentStep(renderer, p, SetLayoutStep(renderer, p, s, layout, false))
  {
  }

  /** The content phase restores and renders a non-empty stored content and
      otherwise leaves the session alone. */
  lemma RestoreContent(renderer: Renderer, p: Policy, s: Session)
    requires p.enabled
    ensures ContentKey in s.saved && s.saved[ContentKey] != "" ==>
              RestoreContentStep(renderer, p, s) == RenderStep(renderer, p, s.(input := s.saved[ContentKey]))
    ensures ContentKey !in s.saved || s.saved[ContentKey] == "" ==> RestoreContentStep(renderer, p, s) == s
  {
  }

  /** setLayout(layout, false) with both writes going through. */
  lemma SetLayoutQuiet(renderer: Renderer, p: Policy, s: Session, layout: Layout)
    requires Accepts(p, s.saved, LayoutKey, LayoutName(layout))
    requires Accepts(p, s.saved[LayoutKey := LayoutName(layout)], ContentKey, s.input)
    ensures var s1 := SetLayoutStep(renderer, p, s, layout, false);
            && s1.input == s.input && s1.layout == layout && s1.output == s.output
            && s1.saved == SaveSnapshot(p, s.saved, layout, s.input)
            && s1.saved == s.saved[LayoutKey := LayoutName(layout)][ContentKey := s.input]
            && Read(p, s1.saved, ContentKey) == Ok(Some(s.input))
  {
  }

  // ---------------------------------------------------------------------
  // handleFileUpload and the timers

  /** No file list, or an empty one, changes nothing. */
  lemma UploadNothing(renderer: Renderer, p: Policy, s: Session, files: Option<seq<FileRead>>)
    requires files.None? || files.value == []
    ensures UploadStep(renderer, p, s, files) == s
  {
  }

  /** If any read fails the output shows the read error and nothing else
      changes: not the input, not the layout, not the store. */
  lemma UploadReadFailure(renderer: Renderer, p: Policy, s: Session, files: seq<FileRead>, i: nat)
    requires i < |files| && files[i].ReadFailed?
    ensures var s' := UploadStep(renderer, p, s, Some(files));
            && s'.output.ErrorMessage?
            && s' == s.(output := s'.output)
  {
  }

  /** After a successful upload the input is the combined text, the output is
      what rendering it gives, and the pair is saved whatever the render did:
      blank, failed or not. */
  lemma UploadSucceeded(renderer: Renderer, p: Policy, s: Session, files: seq<FileRead>, contents: seq<UploadedFile>)
    requires files != [] && Gather(files) == Ok(contents)
    ensures var s' := UploadStep(renderer, p, s, Some(files));
            && s'.input == Combine(contents)
            && s'.output == RenderStep(renderer, p, s.(input := Combine(contents))).output
            && s'.layout == s.layout
            && s'.saved == SaveSnapshot(p, s.saved, s.layout, Combine(contents))
  {
    var loaded := s.(input := Combine(contents));
    var rendered := RenderStep(renderer, p, loaded);
    assert UploadStep(renderer, p, s, Some(files)) == Saved(p, rendered);
    RenderFrame(renderer, p, loaded);
    SaveAfterRender(renderer, p, loaded);
  }

  /** The timer callbacks leave a blank input alone, placeholder included;
      otherwise they render exactly as renderDiff does. */
  lemma AutoRenderGuard(renderer: Renderer, p: Policy, s: Session)
    ensures IsBlank(s.input) ==> AutoRenderStep(renderer, p, s) == s
    ensures !IsBlank(s.input) ==> AutoRenderStep(renderer, p, s) == RenderStep(renderer, p, s)
  {
  }

  // ---------------------------------------------------------------------
  // The controller

  class Viewer {
    var input: string
    var output: Output
    var layout: Layout
    var sideBySideActive: bool
    var lineByLineActive: bool
    const store: LocalStorage
    const renderer: Renderer

    ghost function State(): Session
      reads this, store
    {
      Session(input, output, layout, sideBySideActive, lineByLineActive, store.entries)
    }

    /** The page as loaded: an empty input, the placeholder panel, the
        side-by-side layout, and the buttons as the page markup sets them. */
    constructor (store: LocalStorage, renderer: Renderer, sideBySideActive: bool, lineByLineActive: bool)
      ensures this.store == store && this.renderer == renderer
      ensures State() == Session("", Placeholder, SideBySide, sideBySideActive, lineByLineActive, store.entries)
    {
      this.store := store;
      this.renderer := renderer;
      input := "";
      output := Placeholder;
      layout := SideBySide;
      this.sideBySideActive := sideBySideActive;
      this.lineByLineActive := lineByLineActive;
    }

    /** saveState. */
    method SaveState()
      modifies store
      ensures State() == Saved(store.policy, old(State()))
    {
      var ok := store.SetItem(LayoutKey, LayoutName(layout));
      if ok {
        ok := store.SetItem(ContentKey, input);
      }
    }

    /** renderDiff. */
    method RenderDiff()
      modifies this, store
      ensures State() == RenderStep(renderer, store.policy, old(State()))
    {
      ghost var s0 := State();
      var diff := Trim(input);
      if diff == [] {
        RenderBlank(renderer, store.policy, s0);
        output := Placeholder;
        return;
      }
      var outcome := Render(renderer, diff, layout);
      match outcome
      case Ok(html) =>
        RenderSucceeded(renderer, store.policy, s0, html);
        output := Html(html);
        SaveState();
      case Err(message) =>
        RenderFailed(renderer, store.policy, s0, message);
        output := ErrorMessage(RenderFailedPrefix + message);
    }

    /** setLayout(layout, rerender). */
    method SetLayout(layout: Layout, rerender: bool)
      modifies this, store
      ensures State() == SetLayoutStep(renderer, store.policy, old(State()), layout, rerender)
    {
      this.layout := layout;
      if layout == SideBySide {
        sideBySideActive, lineByLineActive := true, false;
      } else {
        sideBySideActive, lineByLineActive := false, true;
      }
      ghost var switched := old(State()).(layout := layout, sideBySideActive := layout == SideBySide, lineByLineActive := layout != SideBySide);
      assert State() == switched;
      SaveState();
      assert State() == Saved(store.policy, switched);
      if rerender && Trim(input) != [] {
        RenderDiff();
      }
    }

    /** clearAll. */
    method ClearAll()
      modifies this, store
      ensures State() == ClearStep(store.policy, old(State()))
    {
      input := "";
      output := Placeholder;
      var _ := store.RemoveItem(ContentKey);
    }

    /** loadSavedState, as init runs it once the event handlers are bound. */
    method LoadSavedState()
      modifies this, store
      ensures State() == LoadStep(renderer, store.policy, old(State()))
    {
      var savedLayout := store.GetItem(LayoutKey);
      if savedLayout.Err? {
        return;
      }
      if savedLayout.value.Some? {
        var parsed := ParseLayout(savedLayout.value.value);
        if parsed.Some? {
          SetLayout(parsed.value, false);
        }
      }
      ghost var afterLayout := State();
      assert LoadStep(renderer, store.policy, old(State())) == RestoreContentStep(renderer, store.policy, afterLayout);
      var savedContent := store.GetItem(ContentKey);
      if savedContent.Err? {
        return;
      }
      if savedContent.value.Some? && savedContent.value.value != "" {
        input := savedContent.value.value;
        assert State() == afterLayout.(input := savedContent.value.value);
        RenderDiff();
      }
    }

    /** handleFileUpload: `files` is the selection (None for a missing list),
        each entry the settled outcome of reading that file. */
    method HandleFileUpload(files: Option<seq<FileRead>>)
      modifies this, store
      ensures State() == UploadStep(renderer, store.policy, old(State()), files)
    {
      if files.None? || files.value == [] {
        return;
      }
      var gathered := Gather(files.value);
      match gathered
      case Err(message) =>
        output := ErrorMessage(ReadFailedPrefix + message);
      case Ok(contents) =>
        input := Combine(contents);
        RenderDiff();
        SaveState();
    }

    /** The debounce and paste timer callbacks, when they fire. */
    method AutoRender()
      modifies this, store
      ensures State() == AutoRenderStep(renderer, store.policy, old(State()))
    {
      if Trim(input) != [] {
        RenderDiff();
      }
    }
  }
}
