# patchReader viewer page: session controller and locale resolver

This project models the two scripts of the patchReader browser extension's viewer page.

- **`src/common/diff-viewer.js`** is the session controller. It holds the diff text in the input area, the output region, the current layout and its two buttons. It keeps two entries in `localStorage`:
  - `patchReader_layout`;
  - `patchReader_content`.
- **`src/common/i18n.js`** is the locale resolver. It keeps the current locale and the loaded messages. It stores the preference `patchReader_locale` and writes localized strings into the page.

The modules and their files:

- `Results` (`results.dfy`): Option and Result.
- `Text` (`text.dfy`): JavaScript `trim`, using the ECMAScript white-space and line-terminator set, and the blank test `if (s.trim())`.
- `Storage` (`storage.dfy`): `localStorage` as the class `LocalStorage`. It has the entries and a `Policy`:
  - when storage is disabled, every access throws;
  - otherwise a `setItem` throws exactly when the `admits` predicate (a quota) refuses the contents it would produce.
  This lets the model show a half-done save: the layout is written but the content is refused.
- `FileUpload` (`upload.dfy`): the settled outcome of each file read (`Gather`, as `Promise.all`) and the rule that merges the files (`Combine`).
- `DiffViewer` (`viewer.dfy`):
  - each operation is a function from the `Session` before to the `Session` after (`RenderStep`, `SetLayoutStep`, `ClearStep`, `LoadStep`, `UploadStep`, `AutoRenderStep`);
  - lemmas about those functions;
  - the class `Viewer`, whose methods update its fields and the shared store step by step, and are each proved equal to the matching step function.
- `I18n` (`i18n.dfy`):
  - the resolver's pure functions and their lemmas;
  - class `Element`: the text, title and placeholder of an element, with the keys in its `data-i18n*` attributes;
  - class `Localizer`: the module state, and the methods `DetermineLocale`, `ApplyI18n`, `Init` and `SetLocale`.
- `Page` (`page.dfy`): both scripts share one store. Their keys are disjoint, so neither script's writes disturb the other's.

Abstractions:

- **Diff2Html** is a `Renderer`. It is either `Missing` (the library is not loaded, so rendering fails with `Diff2Html library not loaded`) or a total function from the trimmed diff and the layout to markup or an error message. No claim is made about the markup.
- **File reads** arrive as a sequence of settled outcomes.
- **`fetch` of a messages file** is a map from locale to catalog. A locale that is missing from the map failed to load.
- **Navigator language.** `navigator.language` and `navigator.userLanguage` are parameters.
- **Error panel.** An `ErrorMessage` output holds the message before HTML escaping.
- **Initial page.** The placeholder panel and an empty input. The initial button states come from the page markup, so they are constructor arguments.

Two effects of the code are kept as written:

- **`loadSavedState` can overwrite the stored content before reading it.** A whitelisted stored layout is applied with `setLayout(layout, false)`. That call saves, which writes the current input into `patchReader_content` before the content is read. The content read at `diff-viewer.js:60` therefore sees what lines 57, 93 and 74 have just written. On a fresh page the input is empty, so a stored diff is not restored whenever a valid layout was stored and both writes went through (`LoadOverwritesContent`).
- **Save behaviour differs between the two paths.** `renderDiff` saves only after a successful render. `handleFileUpload` saves the combined text again after rendering, whatever the render did (`UploadSucceeded`). A failed render from the input area therefore leaves the store as it was, while a failed render of an upload still saves.

## Model

| member | source | states |
|---|---|---|
| Text.TrimStart | src/common/diff-viewer.js:143 | the result is a suffix of the input, everything dropped is white space, and the result does not start with white space |
| Text.TrimEnd | src/common/diff-viewer.js:143 | the result is a prefix of the input, everything dropped is white space, and the result does not end with white space |
| Text.Trim | src/common/diff-viewer.js:143-145 | the result is the slice of the input with only white space before and after it; it is empty exactly when the input is all white space, and otherwise neither of its ends is white space |
| Text.TrimIdempotent | src/common/diff-viewer.js:143 | trimming twice equals trimming once |
| Storage.ReadAfterWrite | src/common/diff-viewer.js:73-74 | a setItem that completes is read back by getItem, and no other key changes |
| Storage.ReadAfterRemove | src/common/diff-viewer.js:181 | a removeItem that completes reads back as absent, and no other key changes |
| Storage.LocalStorage.GetItem | src/common/diff-viewer.js:55 | getItem returns the stored value, absent for a missing key, or the error it throws when storage is disabled |
| Storage.LocalStorage.SetItem | src/common/diff-viewer.js:73-74 | setItem either stores the pair and reports success, or throws and leaves the store unchanged |
| Storage.LocalStorage.RemoveItem | src/common/diff-viewer.js:181 | removeItem either removes the key, or throws and leaves the store unchanged |
| FileUpload.Gather | src/common/diff-viewer.js:106-119 | all reads succeed exactly when every file was read, and then the files come in selection order; otherwise the error names a failed file, and every file before it was read |
| FileUpload.Blocks | src/common/diff-viewer.js:121-126 | with more than one file, each file's block is `# File: ` and its name, a newline, and its content; a single file's block is its content alone |
| FileUpload.Combine | src/common/diff-viewer.js:121-127 | no files give the empty text, one file gives its content verbatim, and several files start with the first file's headed block |
| FileUpload.JoinAt | src/common/diff-viewer.js:127 | every part of a join appears unchanged at its offset in the joined text |
| FileUpload.JoinSnoc | src/common/diff-viewer.js:127 | joining one more part appends the separator and that part |
| FileUpload.CombineSingle | src/common/diff-viewer.js:121-127 | a single uploaded file becomes the input verbatim, with no header |
| FileUpload.CombineKeepsEachFile | src/common/diff-viewer.js:121-127 | with several files, each file's header line and content appear unchanged, in upload order, at the offset given by the blocks before it |
| FileUpload.CombineAppend | src/common/diff-viewer.js:121-127 | one more file in a batch of two or more appends a blank line, its header and its content |
| FileUpload.CombineTwo | src/common/diff-viewer.js:121-127 | a two-file batch is the two headed blocks joined by a blank line; with CombineAppend this fixes the text of every batch of two or more |
| FileUpload.CombineThree | src/common/diff-viewer.js:121-127 | a three-file batch is the three headed blocks joined by blank lines |
| DiffViewer.Render | src/common/diff-viewer.js:151-158 | a missing Diff2Html fails with `Diff2Html library not loaded`; a present one gives its own markup or error for the trimmed diff and the layout |
| DiffViewer.ParseLayout | src/common/diff-viewer.js:56 | a stored layout is accepted exactly when it is `side-by-side` or `line-by-line`, and it then names the accepted layout |
| DiffViewer.LayoutRoundTrip | src/common/diff-viewer.js:56-57 | a saved layout name reads back as the same layout |
| DiffViewer.KeysDistinct | src/common/diff-viewer.js:73-74 | the layout entry and the content entry do not share a key |
| DiffViewer.SaveOutcome | src/common/diff-viewer.js:71-78 | saveState writes the layout, then the untrimmed input. A refused layout write skips the content write. No other entry, including the locale, is touched |
| DiffViewer.SaveIdempotent | src/common/diff-viewer.js:71-78 | saving the same layout and input twice leaves the store as one save does |
| DiffViewer.RenderBlank | src/common/diff-viewer.js:143-148 | blank input shows the placeholder and writes nothing |
| DiffViewer.RenderSucceeded | src/common/diff-viewer.js:150-169 | on success the output is the renderer's markup for the trimmed input in the current layout, and the layout and untrimmed input are saved |
| DiffViewer.RenderFailed | src/common/diff-viewer.js:150-172 | when Diff2Html is missing or throws, the output is the render error and nothing is written |
| DiffViewer.RenderFrame | src/common/diff-viewer.js:142-173 | renderDiff changes only the output and, through a save, the store |
| DiffViewer.RenderIdempotent | src/common/diff-viewer.js:142-173 | rendering again with no change in between gives the same output and the same store |
| DiffViewer.RenderAgainAfterSuccess | src/common/diff-viewer.js:150-169 | a second render after a successful one changes nothing |
| DiffViewer.SaveAfterRender | src/common/diff-viewer.js:129-131 | the save that follows the upload's render leaves the store as one save does |
| DiffViewer.SetLayoutSwitches | src/common/diff-viewer.js:81-94 | after setLayout the layout is the new one and exactly its button is active. The input is kept, and the new layout and the input are saved |
| DiffViewer.SetLayoutOutput | src/common/diff-viewer.js:95-98 | the output changes only through a re-render, which happens exactly when asked for and the input is not blank; it is the render under the new layout |
| DiffViewer.SetLayoutQuiet | src/common/diff-viewer.js:81-94 | setLayout(layout, false) with both writes accepted keeps input and output, and stores the layout name and the current input |
| DiffViewer.ClearResets | src/common/diff-viewer.js:176-185 | clearAll empties the input and shows the placeholder. The layout and the stored layout are kept. The stored content is removed when storage works; otherwise the store is unchanged |
| DiffViewer.RenderAfterClear | src/common/diff-viewer.js:176-178 | rendering right after clearAll changes nothing |
| DiffViewer.LoadUnavailable | src/common/diff-viewer.js:54-67 | when the layout read throws, the single try skips the content restore too, so nothing changes |
| DiffViewer.LoadWithoutValidLayout | src/common/diff-viewer.js:55-64 | a missing or non-whitelisted stored layout is ignored. A non-empty stored content becomes the input and is rendered; an empty or missing one changes nothing |
| DiffViewer.LoadAppliesLayout | src/common/diff-viewer.js:55-58 | a whitelisted stored layout is applied by setLayout without a re-render, before the content is read |
| DiffViewer.RestoreContent | src/common/diff-viewer.js:60-64 | the content phase restores and renders a non-empty stored content, and otherwise does nothing |
| DiffViewer.LoadOverwritesContent | src/common/diff-viewer.js:55-64 | with a whitelisted stored layout and accepted writes, the layout is applied and the stored content becomes the current input before it is read. On an empty input the output is left alone and nothing is restored |
| DiffViewer.UploadNothing | src/common/diff-viewer.js:103-104 | a missing or empty file list changes nothing |
| DiffViewer.UploadReadFailure | src/common/diff-viewer.js:133-135 | if any read fails, only the output changes, to an error. The input, the layout and the store are untouched |
| DiffViewer.UploadSucceeded | src/common/diff-viewer.js:118-132 | after a successful upload the input is the combined text and the output is what rendering it gives. The pair is saved whatever the render did |
| DiffViewer.AutoRenderGuard | src/common/diff-viewer.js:33-49 | the timer callbacks leave a blank input alone, placeholder included, and otherwise render as renderDiff does |
| DiffViewer.Viewer.constructor | src/common/diff-viewer.js:14-15 | the page starts with an empty input, the placeholder and the side-by-side layout |
| DiffViewer.Viewer.SaveState | src/common/diff-viewer.js:71-78 | the new state is the old one with the store as saveState leaves it |
| DiffViewer.Viewer.RenderDiff | src/common/diff-viewer.js:142-173 | the new state is RenderStep of the old state |
| DiffViewer.Viewer.SetLayout | src/common/diff-viewer.js:81-99 | the new state is SetLayoutStep of the old state |
| DiffViewer.Viewer.ClearAll | src/common/diff-viewer.js:176-185 | the new state is ClearStep of the old state |
| DiffViewer.Viewer.LoadSavedState | src/common/diff-viewer.js:53-68 | the new state is LoadStep of the old state |
| DiffViewer.Viewer.HandleFileUpload | src/common/diff-viewer.js:102-135 | the new state is UploadStep of the old state |
| DiffViewer.Viewer.AutoRender | src/common/diff-viewer.js:35-38 | the new state is AutoRenderStep of the old state |
| I18n.ReportedLanguage | src/common/i18n.js:12 | the reported language is `navigator.language` when it is non-empty, else `navigator.userLanguage` when that is non-empty, else the empty text |
| I18n.LowerCase | src/common/i18n.js:14 | each ASCII capital letter is mapped to its lower-case letter and every other character is kept; the length is kept |
| I18n.Before | src/common/i18n.js:14 | the result is the longest prefix without `-`; when it is shorter than the input, a `-` follows it |
| I18n.BaseLanguage | src/common/i18n.js:14 | the base language is the lower-cased text before the first `-` of the tag |
| I18n.BrowserLanguage | src/common/i18n.js:11-16 | the browser language is the base language of `navigator.language` when that is non-empty, else of `navigator.userLanguage` when that is non-empty, else empty; it never contains `-` |
| I18n.StoredPreference | src/common/i18n.js:21-28 | there is a preference exactly when the store read succeeded and gave a supported locale, and the preference is then that stored value; a missing or unsupported value or a read that throws gives none |
| I18n.ChooseLocale | src/common/i18n.js:19-38 | the chosen locale is always `en`, `zh` or `ja` |
| I18n.ChoicePriority | src/common/i18n.js:21-37 | a supported stored preference wins, else a supported browser language, else `en`. A store read that throws falls through to the browser language |
| I18n.StoredLocaleWins | src/common/i18n.js:21-37 | a supported locale read from the store is chosen whatever the browser language; otherwise the choice is a supported browser language, else `en` |
| I18n.LoadMessages | src/common/i18n.js:41-55 | loading gives the locale's own catalog, else the default locale's, else the empty catalog: at most one fallback |
| I18n.Lookup | src/common/i18n.js:58-63 | getMessage returns the key's message when it is present and non-empty, and the key itself otherwise |
| I18n.LookupWithoutMessages | src/common/i18n.js:41-63 | when neither the locale's nor the default catalog loads, getMessage is the identity |
| I18n.LocalizedByCatalog | src/common/i18n.js:69-73 | an element value is replaced exactly when its key has a present, non-empty message that differs from the key |
| I18n.LocalizedIdempotent | src/common/i18n.js:66-92 | applying the replace rule twice equals applying it once |
| I18n.Localizer.constructor | src/common/i18n.js:5-8 | the resolver starts with the default locale `en` and no messages |
| I18n.Localizer.GetMessage | src/common/i18n.js:58-63 | on the current messages, the key's message when it is present and non-empty, and the key itself otherwise |
| I18n.Localizer.DetermineLocale | src/common/i18n.js:19-38 | determineLocale returns the ChooseLocale choice for the store's content and the navigator's language, always a supported locale |
| I18n.Localizer.ApplySlot | src/common/i18n.js:68-74 | every element's attribute of that kind is localized by the replace rule; its other attributes are unchanged |
| I18n.Localizer.ApplyI18n | src/common/i18n.js:66-96 | every element's text, title and placeholder is localized by the replace rule, and the document language becomes the current locale |
| I18n.Localizer.Init | src/common/i18n.js:99-103 | the current locale is the determined one, the messages are its loaded catalog, and the page is localized |
| I18n.Localizer.SetLocale | src/common/i18n.js:111-122 | an unsupported locale changes nothing. A supported one becomes current; its catalog replaces the messages wholesale; the stored preference is written (or the write throws and the store is unchanged); the page is localized |
| Page.ViewerKeepsLocale | src/common/diff-viewer.js:71-78 | saving and clearing the diff session keep the stored locale preference |
| Page.LocaleKeepsViewer | src/common/i18n.js:115-119 | storing the locale preference keeps the stored layout and content |

## Left out

- Event wiring (`bindEvents`, `init`, the `DOMContentLoaded` hooks) is not modelled: it only attaches the operations above to buttons and events.
- The debounce and paste timers run `AutoRender` when they fire. Timing and cancellation are not modelled.
- `FileReader` and `Promise.all` are asynchronous I/O. A read's outcome is an input to `HandleFileUpload`.
- FileUpload.Gather: reports the first failing file in selection order. `Promise.all` reports the read that fails first in time, which the model cannot know.
- Resetting `fileInput.value` after an upload is not modelled: it is a pure DOM effect.
- Diff2Html is an abstract function of the trimmed diff and the layout. The constant option record passed to it (`showFiles`, `matching`, `matchWordsThreshold`, `maxLineLengthHighlight`, `renderNothingWhenEmpty`) is part of that function, not modelled separately.
- `escapeHtml` and the exact error-panel markup are not modelled: an error output holds the message before escaping.
- `console.warn` logging is not modelled.
- I18n.LowerCase: maps only the ASCII capitals `A`–`Z`; JavaScript `toLowerCase` also lower-cases other letters (such as `É`), which the model keeps unchanged.
- I18n.BaseLanguage: lower-cases ASCII letters only; full Unicode `toLowerCase` is not modelled. No other character lower-cases to a single letter of `en`, `zh` or `ja`, so the locale choice is unaffected. Strings are sequences of code points, not UTF-16 units; trim and the base-language split only involve BMP characters.
- `fetch` and `response.json()` are abstracted into a catalog map. A catalog entry whose `message` is not a string is not modelled.
- The `await` in `initI18n` and `setLocale` lets other code run between setting the locale and replacing the messages. That interleaving is not modelled: each method runs to completion.
- The accessors `getCurrentLocale` and `getSupportedLocales` are not modelled: they only return a field or the constant list.
- Querying elements by attribute is folded into `Element`: a missing key means the element has no such attribute.
- `scripts/build.js` (build tooling) and `src/chrome/background.js` (one browser API listener opening a tab) are not part of this model.
- Viewed-file tracking and drag-and-drop filtering do not appear in these scripts and are not modelled.
