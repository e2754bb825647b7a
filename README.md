# template_builder core, in Dafny

This project models the core of *template_builder*, a desktop tool for
writing product-listing HTML from templates with `{{ NAME }}` placeholders.
It covers both generations of the program.

The current package has these parts:

- The record layer: the hero section, a recipe step with its image, and a
  gallery row.
- The step helpers: sort, swap and renumber a step list in place, and pair
  step texts with images.
- The persistence service: the undo/redo history, the "dict or empty"
  recipe loader, and the fallback `{{ key }}` substitution.
- The head-less application controller: its state, its history and its
  preview formatter.
- The stub text service.
- The shared constants: the placeholder regex, the default column count
  and the palette.

The legacy editor has these parts:

- Placeholder extraction, the semicolon-aware paste and list/paragraph
  formatting.
- The image-grid renderer and the `steps_bind` template filter.
- The placeholder entry and the multi-line text widgets.
- The preview pane: it wraps a fragment into a full HTML document and
  chooses a rendering backend.

How each part is modelled:

- Pure code becomes datatypes and functions.
- Code that mutates becomes classes or methods with loops. Each one is
  proved against a specification function:
  - the in-place step helpers work on an `array`;
  - the undo stack, the controller, the widgets and the preview engine are
    classes;
  - `images_to_html` and `steps_bind` are methods with loops.
- Python's string built-ins (`strip`, `splitlines`, `split`, `join`,
  `lower`, `str(int)`, ordering of strings) are written out in `PyStrings`
  and `PyOrder`.
- `html.escape` and the tag-stripping regex are written out in `HtmlText`.
- The placeholder regex and its scan are written out in `Placeholders`.
- Python exceptions are `Result` / `Option` values carrying a `PyError`.

## Model

| member | source | states |
|---|---|---|
| `Model.HeroToDict` | template_builder/model.py:30-36 | the dict has exactly the keys TITLE, HERO_IMAGE_SRC, HERO_IMAGE_ALT and INTRO |
| `Model.HeroDictRoundTrip` | template_builder/model.py:30-36 | reading the four keys back out of `to_dict()` gives the same hero |
| `Model.PlaceholderShown` | template_builder/model.py:40-43 | an empty field shows its placeholder unchanged by escaping; a non-empty field shows its escaped value |
| `Model.HeroPlaceholdersPlain` | template_builder/model.py:40-43 | the four hero placeholders contain no character that `escape` rewrites |
| `Model.HeroFallbackTagCount` | template_builder/model.py:39-48 | the fallback fragment opens exactly five tags (h1, /h1, p, /p, img), whatever the field values |
| `Model.HeroFragmentShowsValues` | template_builder/model.py:44-48 | each escaped value sits at its fixed place: title inside `<h1>`, intro inside `<p>`, src and alt inside the `img` attributes |
| `Model.NewStepImage` | template_builder/model.py:54-63 | `ValueError("Alt text is required if image is provided")` exactly when img is non-empty and alt is empty; otherwise the record, which then has an alt whenever it has an image |
| `Model.SortedByOrderPermutes` | template_builder/model.py:82 | sorting by order is a permutation |
| `Model.SortedByOrderAscending` | template_builder/model.py:82 | sorting by order gives non-decreasing orders |
| `Model.SortedByOrderStable` | template_builder/model.py:82 | elements with equal order keep their relative order (Python's sort is stable) |
| `Model.AscendingUnique` | template_builder/model.py:82 | two ascending lists with the same elements of each order are equal, so the stable sort result is unique |
| `Model.NewGalleryRow` | template_builder/model.py:69-78 | more than three images raises the "at most 3" ValueError; otherwise repeated orders raise the "unique" ValueError; success exactly when neither applies, and the row keeps its images |
| `Model.ToJinjaCtx` | template_builder/model.py:81-83 | the context has the single key IMAGES_DESC with one entry per image |
| `Model.ToJinjaCtxAscending` | template_builder/model.py:81-83 | IMAGES_DESC lists the `[img, alt]` pairs of an ascending permutation of the row's images |
| `Model.ToJinjaCtxOrderIndependent` | template_builder/model.py:73-83 | two valid rows holding the same images in any order produce the same context |
| `Model.GalleryImgTagShows` | template_builder/model.py:88-91 | one image's tag opens with `<img src="`, shows the escaped src (or `{{ IMG_SRC }}` when empty) at index 10 and the escaped alt (or `{{ IMG_ALT }}`) right after it, opens exactly one tag, and is one line when src and alt are |
| `Model.GalleryFallbackTagCount` | template_builder/model.py:86-92 | the gallery fallback opens exactly one tag per image |
| `Model.GalleryFallbackShowsImages` | template_builder/model.py:86-92 | an empty row gives the empty string; otherwise, for values without line breaks, the fragment splits on newlines into one line per image, following the images in ascending order (a permutation of the row), line k showing image k's escaped src and alt or their placeholders |
| `HtmlText.Escape` | template_builder/model.py:45-47 | escaped text contains none of `<`, `>`, `"` and `'` |
| `HtmlText.EscapeRoundTrip` | template_builder/model.py:45-47 | un-escaping the five entities restores the original text |
| `HtmlText.EscapePlain` | template_builder/model.py:40-43 | text without special characters is left unchanged by escaping |
| `HtmlText.StripTagsPlain` | template_builder/step_image.py:50-51 | text without `<` passes the tag-stripping substitution unchanged |
| `StepImageHelpers.EnsureList` | template_builder/step_image.py:16-21 | a non-list raises `TypeError("steps must be a list")`; a list with a non-StepImage raises the ValueError; otherwise the steps themselves |
| `StepImageHelpers.EnsureListRoundTrip` | template_builder/step_image.py:16-21 | every list of steps passes the guard and comes back unchanged |
| `StepImageHelpers.InsertStep` | template_builder/step_image.py:24-28 | one in-place insertion step leaves the first i+1 cells equal to the stable insertion of cell i, and the rest untouched |
| `StepImageHelpers.SortSteps` | template_builder/step_image.py:24-28 | the array becomes the stable sort by order of its old contents: ascending and a permutation |
| `StepImageHelpers.SortedByOrderIdempotent` | template_builder/step_image.py:24-28 | sorting a sorted list changes nothing |
| `StepImageHelpers.SwapResult` | template_builder/step_image.py:31-40 | equal indices leave the list alone; an index outside `[0, n)` raises "swap indices out of range"; otherwise the two cells trade places |
| `StepImageHelpers.SwapSteps` | template_builder/step_image.py:31-40 | the array becomes the swap result, or stays unchanged and the ValueError is returned |
| `StepImageHelpers.SwappedPermutation` | template_builder/step_image.py:39 | a swap is a permutation |
| `StepImageHelpers.SwapResultTwice` | template_builder/step_image.py:31-40 | swapping the same pair twice restores the list |
| `StepImageHelpers.Renumbered` | template_builder/step_image.py:43-48 | the k-th step gets order k+1 and keeps its image, alt and text |
| `StepImageHelpers.RenumberSteps` | template_builder/step_image.py:43-48 | the array becomes the renumbered list |
| `StepImageHelpers.RenumberedIdempotent` | template_builder/step_image.py:43-48 | renumbering twice is renumbering once |
| `StepImageHelpers.RenumberedSorted` | template_builder/step_image.py:43-48 | renumbered steps are ascending with distinct orders, and sorting leaves them in place |
| `StepImageHelpers.StripHtml` | template_builder/step_image.py:50-51 | the result is empty or stripped text |
| `StepImageHelpers.StripHtmlPlain` | template_builder/step_image.py:50-51 | for plain text that `unescape` leaves alone, the result is `text.strip()` |
| `StepImageHelpers.DerivedAlt` | template_builder/step_image.py:60 | the stripped text if non-empty, else `"Step i+1"` when there is an image, else empty |
| `StepImageHelpers.Slot` | template_builder/step_image.py:57-64 | position i yields nothing exactly when its text is blank and it has no image; otherwise a step with that text and image, order i+1, and the alt derived from that text, image and index |
| `StepImageHelpers.Slots` | template_builder/step_image.py:55-57 | one slot per index up to the longer of the two lists |
| `StepImageHelpers.BindSteps` | template_builder/step_image.py:53-65 | the loop returns exactly the kept slots in index order |
| `StepImageHelpers.BindOne` | template_builder/step_image.py:58-64 | one loop iteration computes the slot of its index |
| `StepImageHelpers.SlotHasAlt` | template_builder/step_image.py:60-64 | every produced step passes the StepImage alt check, so `bind_steps` never raises |
| `StepImageHelpers.BindSlots` | template_builder/step_image.py:53-65 | every bound step is the slot at its order minus one and has an alt; orders strictly increase; every non-skipped slot is bound |
| `Storage.History.Push` | template_builder/services/storage.py:31-37 | the future beyond the current index is dropped, the state appended, and the index points at it |
| `Storage.History.Undo` | template_builder/services/storage.py:39-46 | raises `IndexError("Nessuno stato precedente.")` exactly when the index is at most 0; otherwise steps back one and returns that snapshot |
| `Storage.History.Redo` | template_builder/services/storage.py:48-55 | raises `IndexError("Nessuno stato successivo.")` exactly at the last snapshot; otherwise steps forward one and returns that snapshot |
| `Storage.EmptyHistory` | template_builder/services/storage.py:27-29 | a new stack is valid and has no current state |
| `Storage.EmptyHistoryRaises` | template_builder/services/storage.py:39-55 | undo and redo both raise on a new stack |
| `Storage.PushPushUndoRedo` | template_builder/services/storage.py:31-55 | after pushing a then b, undo returns a and redo then returns b |
| `Storage.PushThenRedoRaises` | template_builder/services/storage.py:31-55 | right after a push there is nothing to redo |
| `Storage.PushAfterUndoDropsFuture` | template_builder/services/storage.py:32-37 | a push after an undo discards the undone snapshot, keeps the older ones, and leaves nothing to redo |
| `Storage.UndoTimesReach` | template_builder/services/storage.py:39-46 | k undos succeed exactly when k is at most the index, landing k places back |
| `Storage.RedoTimesReach` | template_builder/services/storage.py:48-55 | k redos succeed exactly when k snapshots lie ahead, landing k places forward |
| `Storage.UndoRedoInverse` | template_builder/services/storage.py:39-55 | k undos followed by k redos restore the history |
| `Storage.UndoRedoStack.constructor` | template_builder/services/storage.py:27-29 | the stack starts as the empty history |
| `Storage.UndoRedoStack.Push` | template_builder/services/storage.py:31-37 | the fields become the pushed history |
| `Storage.UndoRedoStack.Undo` | template_builder/services/storage.py:39-46 | the fields and the result are those of the history's undo |
| `Storage.UndoRedoStack.Redo` | template_builder/services/storage.py:48-55 | the fields and the result are those of the history's redo |
| `Storage.LoadRecipe` | template_builder/services/storage.py:71-82 | a decoded JSON object is returned as is; anything else, including an unreadable file, gives `{}` |
| `Storage.PlaceholderMatch` | template_builder/services/storage.py:91 | a match of `\{\{\s*KEY\s*\}\}` at the start spans at least the key and four braces |
| `Storage.PlaceholderMatchSound` | template_builder/services/storage.py:91 | every match is `{{`, whitespace, the key, whitespace and `}}` |
| `Storage.SubAllKeepsOtherPlaceholder` | template_builder/services/storage.py:91-92 | substituting one key leaves a placeholder for a different name whole and substitutes the text after it |
| `Storage.RenderKeepsAbsentPlaceholder` | template_builder/services/storage.py:84-93 | a placeholder whose name is not a context key comes through `_simple_render` unchanged, whatever keys the rest of the template uses |
| `Storage.SimpleRender` | template_builder/services/storage.py:84-93 | the loop substitutes each context entry in turn, in dict order |
| `Storage.RenderWithoutKeys` | template_builder/services/storage.py:84-93 | a template that mentions no key comes back unchanged |
| `Storage.PlaceholderMatched` | template_builder/services/storage.py:91 | `{{`, blanks, the key, blanks and `}}` match whole |
| `Storage.SubAllInContext` | template_builder/services/storage.py:91-92 | a placeholder after brace-free text is replaced by the value, the text before it kept and the rest substituted |
| `Values.GetOrEmpty` | template_builder/builder_core.py:161-162 | the stored value for a present key, `""` for a missing one |
| `BuilderCore.NewApp` | template_builder/builder_core.py:71-80 | a new controller has an empty state and an empty history |
| `BuilderCore.AppLoad` | template_builder/builder_core.py:87-99 | a loaded recipe becomes the state and is pushed; FileNotFoundError, OSError, ValueError and TypeError empty the state and leave the history alone; any other error propagates with nothing changed |
| `BuilderCore.AppUndo` | template_builder/builder_core.py:101-104 | the history's IndexError propagates with nothing changed; otherwise the history steps back by one, its snapshots unchanged, and the state becomes the snapshot at the new index |
| `BuilderCore.AppRedo` | template_builder/builder_core.py:106-109 | the history's IndexError propagates with nothing changed; otherwise the history steps forward by one, its snapshots unchanged, and the state becomes the snapshot at the new index |
| `BuilderCore.NewAppInStep` | template_builder/builder_core.py:71-80 | a new controller's state agrees with its history |
| `BuilderCore.OperationsKeepInStep` | template_builder/builder_core.py:87-109 | load, undo and redo keep the state either empty or equal to the history's current snapshot |
| `BuilderCore.LoadLoadUndoRedo` | template_builder/builder_core.py:87-109 | after loading x then y, undo restores x and redo restores y |
| `BuilderCore.UndoAtStartRaises` | template_builder/builder_core.py:101-104 | undo right after start, or after the first load, raises IndexError |
| `BuilderCore.StorageLoaderAlwaysPushes` | template_builder/builder_core.py:95-97 | since `load_recipe` never raises, every load pushes a snapshot, the object or `{}` |
| `BuilderCore.TemplateBuilderApp.constructor` | template_builder/builder_core.py:71-80 | the object starts as the new controller |
| `BuilderCore.TemplateBuilderApp.LoadRecipe` | template_builder/builder_core.py:87-99 | the fields and the raised error are those of `AppLoad` |
| `BuilderCore.TemplateBuilderApp.Undo` | template_builder/builder_core.py:101-104 | the fields and the raised error are those of `AppUndo` |
| `BuilderCore.TemplateBuilderApp.Redo` | template_builder/builder_core.py:106-109 | the fields and the raised error are those of `AppRedo` |
| `BuilderCore.RenderHtml` | template_builder/builder_core.py:157-165 | no preview exactly when neither TITLE nor BODY is truthy |
| `BuilderCore.RenderHtmlLayout` | template_builder/builder_core.py:165 | the preview is `<h1>`, the title, `</h1>` and a newline, then the body untouched by the stub formatter |
| `BuilderCore.RenderHtmlEmpty` | template_builder/builder_core.py:157-165 | a recipe of empty strings has no preview |
| `BuilderCore.RenderHtmlStrings` | template_builder/builder_core.py:157-165 | for string fields the preview is `"<h1>" + title + "</h1>\n" + body` unless both are empty |
| `TextService.SmartPaste` | template_builder/services/text.py:4-5 | every returned line is stripped and non-blank |
| `TextService.SmartPasteKeepsContent` | template_builder/services/text.py:4-5 | the lines hold exactly the non-space characters of the input, in order, and none contains a line break, so nothing is split on `;` |
| `TextService.AutoFormat` | template_builder/services/text.py:7-8 | the stub returns its input |
| `TextService.ExtractPlaceholders` | template_builder/services/text.py:10-12 | the set holds exactly the names the `[A-Z0-9_]` scan captures |
| `TextService.ExtractCollapsesDuplicates` | template_builder/services/text.py:10-12 | a placeholder written twice contributes its name once |
| `TextService.ExtractWithinLegacyGrammar` | template_builder/services/text.py:10-12 | every name found is also found by the legacy `[A-Za-z0-9_-]` scan |
| `TextService.ImagesToHtml` | template_builder/services/text.py:14-15 | the stub returns `<!-- TODO: gallery -->` |
| `Assets.DefaultColsPositive` | template_builder/assets.py:8 | the default column count is 3 |
| `Assets.PaletteWellFormed` | template_builder/assets.py:11-15 | the palette has the keys error, valid and bg, each a `#rrggbb` colour |
| `Assets.CapturedNamesInGrammar` | template_builder/assets.py:5 | every captured name is non-empty and drawn from `[A-Z0-9_]` |
| `Placeholders.FindAll` | template_builder/assets.py:5 | every captured name belongs to the grammar |
| `Placeholders.MatchFrontPlaceholder` | template_builder/assets.py:5 | `{{`, blanks, a name, blanks and `}}` match whole and capture the name |
| `Placeholders.FindAllInOrder` | template_builder/assets.py:5 | after brace-free text, a placeholder's name comes first, then the names of the rest |
| `Placeholders.UpperNamesAreMixedNames` | legacy/template_builder_legacy.py:123 | every name the current grammar captures, the legacy grammar captures too |
| `LegacyCore.ExtractPlaceholdersSpec` | legacy/template_builder_legacy.py:123-126 | the result is strictly sorted, holds exactly the captured names, and each is a legacy name |
| `LegacyCore.ExtractPlaceholdersDistinct` | legacy/template_builder_legacy.py:125-126 | no name appears twice |
| `LegacyCore.SmartPaste` | legacy/template_builder_legacy.py:128-134 | every returned piece is stripped and non-blank |
| `LegacyCore.SmartPasteLines` | legacy/template_builder_legacy.py:128-134 | without the single-line split it agrees with the current line-based paste |
| `LegacyCore.SmartPasteSplitContent` | legacy/template_builder_legacy.py:128-134 | the pieces hold exactly the non-space characters of the input minus its semicolons, in order |
| `LegacyCore.SmartPasteSplitHasNoSemicolon` | legacy/template_builder_legacy.py:132-133 | when the paste splits its single line on `;`, no piece contains `;` |
| `LegacyCore.SmartPasteNoLineBreak` | legacy/template_builder_legacy.py:128-134 | no piece contains a line break |
| `LegacyCore.SmartPasteJoinSplitsBack` | legacy/template_builder_legacy.py:128-134 | for a non-empty paste, joining the pieces with newlines and splitting on newlines gives them back |
| `LegacyCore.AutoFormat` | legacy/template_builder_legacy.py:136-149 | text containing `<` is returned unchanged |
| `LegacyCore.AutoFormatBlank` | legacy/template_builder_legacy.py:137-143 | blank text formats to the empty string |
| `LegacyCore.AutoFormatIdempotent` | legacy/template_builder_legacy.py:136-149 | formatting formatted text changes nothing |
| `LegacyCore.AutoFormatListItems` | legacy/template_builder_legacy.py:144-146 | mode `ul` gives `<ul>`, one `<li>` line per stripped non-blank line, `</ul>`; the items split back into those lines |
| `LegacyCore.AutoFormatParagraphs` | legacy/template_builder_legacy.py:147-148 | mode `p` splits on newlines into one `<p>` line per stripped non-blank line |
| `LegacyCore.AutoFormatOtherMode` | legacy/template_builder_legacy.py:136-149 | any other mode returns the text, or the empty string when it is blank |
| `LegacyCore.PerRow` | legacy/template_builder_legacy.py:156 | at least 1 and at least cols; equal to cols when cols is positive and 1 otherwise |
| `LegacyCore.WidthPctFits` | legacy/template_builder_legacy.py:157 | the width lies in -1..99; up to 100 per row, `per` images of width+1 percent fit in 100% and one more would not; beyond 100 it is -1 |
| `LegacyCore.RenderLine` | legacy/template_builder_legacy.py:161-177 | every emitted line is non-empty and starts with `<` |
| `LegacyCore.Rendered` | legacy/template_builder_legacy.py:161-177 | one rendered line per grid line |
| `LegacyCore.ImagesToHtml` | legacy/template_builder_legacy.py:151-178 | the loop produces exactly the specified grid: full rows of `per` images, then one `single` row for the remainder |
| `LegacyCore.GridShape` | legacy/template_builder_legacy.py:158-177 | `n / per` full-row openers, one `single` opener exactly when `n % per > 0`, and a closer for each |
| `LegacyCore.GridShowsImages` | legacy/template_builder_legacy.py:158-177 | the images shown are exactly the rows with a non-empty src, in order |
| `LegacyCore.ImagesHtmlEmpty` | legacy/template_builder_legacy.py:153-154 | the html is empty exactly when there are no rows; otherwise it starts with `<` |
| `LegacyCore.GetText` | legacy/template_builder_legacy.py:78-79 | `dict.get(key, "")` |
| `LegacyCore.StepLines` | legacy/template_builder_legacy.py:50-57 | every step line is stripped and non-blank |
| `LegacyCore.CleanRawQuoted` | legacy/template_builder_legacy.py:53-56 | one pair of matching quotes around the text is removed |
| `LegacyCore.EntryImage` | legacy/template_builder_legacy.py:68-79 | fails, with IndexError, exactly for an empty list or tuple |
| `LegacyCore.BindLines` | legacy/template_builder_legacy.py:64-81 | on success, one step per line |
| `LegacyCore.StepsBind` | legacy/template_builder_legacy.py:38-83 | the loop returns exactly the specified steps, or the first IndexError |
| `LegacyCore.BindLinesSpec` | legacy/template_builder_legacy.py:64-81 | success exactly when no line meets an empty list or tuple; then step i has line i and the i-th image's src and alt, or empty ones; else the first bad entry's error |
| `LegacyCore.StepsBindTexts` | legacy/template_builder_legacy.py:50-81 | on success the step texts are the stripped non-blank lines of the cleaned input, in order, none with a line break |
| `UiUtilsLegacy.PlaceholderEntry.constructor` | template_builder/legacy/ui_utils_legacy.py:93-99 | a new entry is in the focus-out state of an empty entry |
| `UiUtilsLegacy.PlaceholderEntry.ClearPlaceholder` | template_builder/legacy/ui_utils_legacy.py:101-104 | the view becomes the focus-in view: text equal to the hint is cleared and the default colour restored |
| `UiUtilsLegacy.PlaceholderEntry.AddPlaceholder` | template_builder/legacy/ui_utils_legacy.py:106-111 | the view becomes the focus-out view: empty text gets the grey hint, other text the default colour |
| `UiUtilsLegacy.EntryStartsWithHint` | legacy/test_placeholders_legacy.py:14-20 | a new entry shows the hint in grey |
| `UiUtilsLegacy.EntryFocusRoundTrip` | legacy/test_placeholders_legacy.py:22-34 | focus-in on the hint clears it in the default colour; focus-out brings the grey hint back |
| `UiUtilsLegacy.EntryKeepsTypedText` | template_builder/legacy/ui_utils_legacy.py:101-111 | typed text other than the hint survives both focus events, ending in the default colour |
| `UiUtilsLegacy.EntryHintIsJustText` | template_builder/legacy/ui_utils_legacy.py:101-111 | text equal to the hint is cleared on focus-in even when the user typed it; a second focus-out keeps the hint but turns it to the default colour, since the hint is then ordinary text |
| `UiUtilsLegacy.PlaceholderMultiTextField.constructor` | template_builder/legacy/ui_utils_legacy.py:129-147 | a new field is in the focus-out state of an empty field |
| `UiUtilsLegacy.PlaceholderMultiTextField.ClearPlaceholder` | template_builder/legacy/ui_utils_legacy.py:149-152 | the view becomes the focus-in view |
| `UiUtilsLegacy.PlaceholderMultiTextField.AddPlaceholder` | template_builder/legacy/ui_utils_legacy.py:154-159 | the view becomes the focus-out view |
| `UiUtilsLegacy.PlaceholderMultiTextField.HandlePaste` | template_builder/legacy/ui_utils_legacy.py:161-177 | always returns "break"; the view becomes the paste view |
| `UiUtilsLegacy.PlaceholderMultiTextField.InsertLines` | template_builder/legacy/ui_utils_legacy.py:172-175 | the lines joined by newlines are inserted at the cursor; nothing else changes |
| `UiUtilsLegacy.PlaceholderMultiTextField.RenderHtml` | template_builder/legacy/ui_utils_legacy.py:179-183 | returns the right-stripped content |
| `UiUtilsLegacy.TextStartsWithHint` | template_builder/legacy/ui_utils_legacy.py:146-147 | a new field shows the hint in grey with the cursor after it |
| `UiUtilsLegacy.TextFocusRoundTrip` | template_builder/legacy/ui_utils_legacy.py:149-159 | for a hint without surrounding blanks, focus-in clears it and focus-out restores it |
| `UiUtilsLegacy.PaddedHintIsNotCleared` | template_builder/legacy/ui_utils_legacy.py:150 | a hint with leading or trailing blanks never equals the stripped content, so focus-in leaves it |
| `UiUtilsLegacy.TextKeepsTypedText` | template_builder/legacy/ui_utils_legacy.py:149-159 | non-blank content other than the hint survives both focus events |
| `UiUtilsLegacy.PasteOverHint` | template_builder/legacy/ui_utils_legacy.py:166-176 | pasting over the hint replaces it by the pasted lines, which split back on newlines, and calls `on_change` once |
| `UiUtilsLegacy.PasteAtCursor` | template_builder/legacy/ui_utils_legacy.py:169-176 | pasting into other content inserts the joined lines at the cursor and calls `on_change` once |
| `UiUtilsLegacy.PasteNothing` | template_builder/legacy/ui_utils_legacy.py:162-171 | an unreadable clipboard changes nothing; a paste with no lines only removes a showing hint and does not call `on_change` |
| `UiUtilsLegacy.RenderIsTrimmedContent` | template_builder/legacy/ui_utils_legacy.py:179-183 | the render is the content without trailing whitespace, so a field showing its hint renders the hint |
| `PreviewEngineLegacy.WrapDocument` | template_builder/legacy/preview_engine_legacy.py:180-188 | the result passes the "already a document" test; it equals the input exactly when the input passes it; otherwise it is the input inside the fixed DOCTYPE skeleton |
| `PreviewEngineLegacy.WrapDocumentIdempotent` | template_builder/legacy/preview_engine_legacy.py:180-188 | wrapping twice is wrapping once |
| `PreviewEngineLegacy.WrapDocumentKeepsHtml` | template_builder/legacy/preview_engine_legacy.py:183-188 | the fragment occurs unchanged in the result |
| `PreviewEngineLegacy.Setup` | template_builder/legacy/preview_engine_legacy.py:36-113 | an inline renderer fails when its library is missing or the toolkit raises, otherwise it is ready with a fresh widget; the external renderer always gets its button |
| `PreviewEngineLegacy.LoadSpec` | template_builder/legacy/preview_engine_legacy.py:42-116 | a ready renderer shows the html, and CEF shows its wrapped document; only a tkinterweb renderer without a frame raises; a renderer without its widget is left unchanged |
| `PreviewEngineLegacy.ExternalLoadOverwrites` | template_builder/legacy/preview_engine_legacy.py:115-116 | the external renderer keeps only the latest html |
| `PreviewEngineLegacy.ReadyShowsRenderedText` | template_builder/legacy/preview_engine_legacy.py:79-90 | a ready renderer given a wrapped document shows exactly that text; CEF's second wrapping changes nothing |
| `PreviewEngineLegacy.DisposeRenderer` | template_builder/legacy/preview_engine_legacy.py:45-130 | the widget is gone; the external renderer keeps its html, the others show nothing |
| `PreviewEngineLegacy.PreferredBackend` | template_builder/legacy/preview_engine_legacy.py:160 | tkinterweb exactly when it imported, cef exactly when only cefpython imported, else external |
| `PreviewEngineLegacy.InitRendererChoice` | template_builder/legacy/preview_engine_legacy.py:160-174 | a ready renderer always results: the preferred one when setup does not raise, the external one when it does; a dialog with the toolkit's message appears exactly when an inline setup raised without mentioning "stubs mechanism" |
| `PreviewEngineLegacy.RenderInto` | template_builder/legacy/preview_engine_legacy.py:194-198 | no renderer means no change; otherwise the renderer loads the document, and a dialog appears exactly when a tkinterweb renderer has no frame; through `PreviewEngine` that renderer state only follows `dispose`, where the source widget's `TclError` is raised first |
| `PreviewEngineLegacy.PreviewEngine.constructor` | template_builder/legacy/preview_engine_legacy.py:137-141 | no source tab, no renderer, no notebook |
| `PreviewEngineLegacy.PreviewEngine.InitFrame` | template_builder/legacy/preview_engine_legacy.py:143-177 | an empty source tab, the notebook, and the renderer and dialog that the backend choice gives |
| `PreviewEngineLegacy.PreviewEngine.Render` | template_builder/legacy/preview_engine_legacy.py:179-198 | when the source widget was destroyed, `TclError` escapes and nothing changes; otherwise the source tab, when it exists, shows the wrapped document, and the renderer loads it |
| `PreviewEngineLegacy.PreviewEngine.Dispose` | template_builder/legacy/preview_engine_legacy.py:200-204 | the renderer is disposed and the notebook destroyed, and with it the source widget inside it |
| `PreviewEngineLegacy.RenderAfterInitAgrees` | template_builder/legacy/preview_engine_legacy.py:143-198 | after `init_frame`, every render leaves the web preview showing the same text as the source tab, with no dialog |

## Left out

- Tk itself is not modelled: windows, event binding, packing, colours as
  Tk names, and `update_idletasks`. A widget's state is its text, its
  cursor and its colour, and event handlers are methods called directly.
- File and process I/O is not modelled: `quick_save`, the file opening
  and JSON decoding in `load_recipe`, `export_html` with Jinja2, the temporary
  file and `webbrowser` call of the external renderer, and `pprint` to
  stderr in `steps_bind`. `load_recipe` takes what `json.load` produced (an
  object, another value or a failure) as its argument.
- The GUI parts of the controller are not modelled: `_build_ui`,
  `_bind_global_shortcuts`, `_display_available` and `update_preview`.
- `html.unescape` is a function parameter of `StripHtml`; its HTML5 entity
  table is not modelled.
- `re.sub` replacement strings are taken literally. A value containing a
  backslash escape would be interpreted by Python's `pattern.sub`.
- Python's `str.lower()` is modelled on ASCII letters only. Other cased
  characters are left unchanged.
- `Storage.UndoRedoStack.Push` stores a value. The source stores the
  caller's object, so a later mutation of that object would show through
  the history.
- The `if new is not None` checks in the controller's undo and redo are not
  modelled, since the history only ever returns a stored snapshot or raises.
- A Python dict is a `map` where only membership matters. It is an ordered
  sequence of pairs in `_simple_render`, where insertion order decides the
  order of substitution.
- `str()` of values other than strings, integers, booleans and None is
  carried as an opaque text, with its truth value, in `Values.Other`.
- In `images_to_html`, `int(100 / per)` goes through a float. It is
  modelled as integer division, which agrees for every `per` from 1 up.
- In `images_to_html`, rows are pairs of strings; non-string src or alt
  values are not modelled.
- `LegacyCore.ImagesToHtml`: its contract ties the html to a grid
  specification. It does not state that the html splits back into one
  line per grid line, because that needs character-level facts about the
  long literal tags.
- In `steps_bind`, `IMAGES_STEP` entries are a list or tuple, a dict, or
  anything else. Entries of other types yield empty src and alt, as in the
  source. A list or tuple entry takes its first two items as strings; a
  non-list `IMAGES_STEP` is not modelled.
- The `nl2br` filter at legacy/template_builder_legacy.py:92 and the
  legacy editor's GUI around the helpers are not part of this model.
- The `smart_paste` helper of template_builder/legacy/ui_utils_legacy.py:115-121
  is the same code as the legacy core's, so the text widget is modelled with
  `LegacyCore.SmartPaste`.
- The text widget's `on_change` callback is a counter of calls. The
  clipboard is an `Option`: `None` stands for the `TclError` of an empty or
  non-text clipboard.
- Tk's INSERT mark is the boundary between the widget's `before` and
  `after` text. Inserting at it advances it past the inserted text.
- The preview backends' own rendering (tkinterweb, CEF, the browser) is
  not modelled. A renderer's state is its widget's presence and the text
  it would show.
- The `TclError` that `render` raises after `dispose` carries only the
  words "invalid command name"; the destroyed widget's Tk path name,
  which Tk appends, is not modelled.
- CEF's class-wide `_initialized` flag and its `cef.Initialize()` and
  `cef.Shutdown()` calls are not modelled.
- A toolkit failure during setup is a parameter (`Env.setupFailure`).
  `ExternalRenderer.setup` is taken never to raise, so the fallback in
  `init_frame` always succeeds.
- The `tcl_platform(threaded)` call at the start of `init_frame` is not
  modelled.
- The step helpers work on an `array<StepImage>` whose cells are values.
  Aliasing of one step object in two cells is not modelled.
  `StepImageHelpers.EnsureList` models the type guard they begin with.
