# Cropper, dropdown, block-format toolbar and throttle: a Dafny model

This project models four pieces of logic from a front-end demo repository, and proves properties of them.

- **Crop geometry** of the profile-picture cropper (`Crop`, `crop.dfy`). A slider value from 0 to 100 sets the zoom `1 + v/100`. Pointer drags pan the image, clamped to pan limits worked out from the container, the base image and the scaled image sizes. `getCroppedImage` inverts the display transform to find the source rectangle in natural pixels, clamps it into the image, and derives the output and working canvas sizes.
- **Dropdown** (`Dropdown`, `dropdown.dfy`). Items register in mount order. A highlighted item moves with the arrow keys and wraps around. Escape closes the list, and so does a document click, depending on where it lands. The popup is placed with a small formula.
- **Block-format toolbar** (`Toolbar`, `toolbar.dfy`). This is the decision table that turns a chosen option, the current block type and the selection kind into one editor request: paragraph, heading(tag), list(kind), quote or nothing. It also covers the block type the toolbar reports back and the option it shows as active.
- **Throttle gate** (`Throttle`, `throttle.dfy`). A wrapped callback runs at most once per `delay` milliseconds. Its only state is the time of the last run.

`wrappers.dfy` holds the `Option` type. It stands for JavaScript's `null`/`undefined`: an unattached ref, an omitted option, or an array read out of range.

Modelling choices:
- DOM integers (`clientWidth`, `offsetWidth`, `naturalWidth`, ...) are `nat`. Pointer coordinates, pan offsets and pixel ratios are `real`.
- `Math.round` is modelled exactly on reals: the nearest integer, with halves rounded up.
- The clock, the window's device pixel ratio and whether a canvas yields a 2D context are all parameters.
- Lexical's effects are abstract. `Toolbar.ElementAfter` is an assumed effect: a block request replaces the selected top-level element with one of the requested kind. It is used by `Toolbar.ChoiceIsShown`, `Toolbar.ExactlyOneActiveAfterChoice`, `Toolbar.ListOptionToggles` and `Toolbar.QuoteIsSticky`, whose statements hold under that assumption.

Some behaviours a reader might expect that the code does not have (the model follows the code):
- Choosing a block option twice does not return to the original block type. For a list option, the second choice reverts to a paragraph (`Toolbar.ListOptionToggles`). Quote never reverts (`Toolbar.QuoteIsSticky`).
- The pan is not kept within the limits at all times. Moving the slider does not re-clamp it (`Crop.SliderLeavesPanOutsideLimits`). The clamp at export time keeps the window inside the image only when the window fits in the image (`Crop.TallWindowPinnedToTop`).
- A 0×0 container with the image loaded does not give null: there is no container-size check, and the crop yields a 1×1 output from an empty source rectangle (`Crop.EmptyContainerStillCrops`).
- Zoom 1 locks the pan only when the base image is no larger than the container (`Crop.ScaleOneLocksPan`).
- The repository has no collaborative-editing code: no merge, transport or presence. None is modelled.

## Model

| member | source | states |
|---|---|---|
| Crop.Scale | src/components/pages/cropper/components/crop.component.tsx:89-99 | over the slider's 0..100 domain the zoom lies in [1, 2], and the slider value can be read back as `(s - 1) * 100` |
| Crop.ScaleStrictlyIncreasing | src/components/pages/cropper/components/crop.component.tsx:120 | a larger slider value gives a strictly larger zoom |
| Crop.AxisLimit | src/components/pages/cropper/components/crop.component.tsx:108-112 | the limit is non-negative; it is 0 exactly when the scaled image is no wider than the container; otherwise container + 2·limit equals the scaled size |
| Crop.PanLimits | src/components/pages/cropper/components/crop.component.tsx:101-115 | both limits are non-negative; each is the axis limit of the base and container sizes, with a missing ref reading as 0; a missing image gives limits (0, 0), but a missing container with the image attached gives half the scaled base size; each axis is 0 exactly when the scaled image fits that axis of the container |
| Crop.AxisLimitIsCoverageBound | src/components/pages/cropper/components/crop.component.tsx:108-112 | when the scaled image can cover the container, an offset keeps it covering if and only if the offset is within ±limit |
| Crop.PanLimitsAreCoverageBounds | src/components/pages/cropper/components/crop.component.tsx:101-115 | on both axes, a pan is within the limits if and only if the scaled image still covers the whole container |
| Crop.SliderDragged | src/components/pages/cropper/components/crop.component.tsx:96-98 | a slider drag sets only the slider value; pan and drag origin stay as they were (there is no re-clamp) |
| Crop.PanStart | src/components/pages/cropper/components/crop.component.tsx:122-126 | pointer down records a drag origin such that origin + current transform = pointer; nothing else changes |
| Crop.ClampAxis | src/components/pages/cropper/components/crop.component.tsx:133-135 | the result lies in [-m, m]; it equals the input inside the range and the nearer bound outside it, so an axis with limit 0 is locked at 0 |
| Crop.PanMove | src/components/pages/cropper/components/crop.component.tsx:128-138 | without exactly the primary button held or without a drag origin, nothing changes; otherwise each axis of the new pan is pointer minus origin clamped on its own to that axis's limit at the current zoom, so the pan is within the limits, and equals pointer minus origin whenever that is within them |
| Crop.PanEnd | src/components/pages/cropper/components/crop.component.tsx:140-142 | pointer up or leave clears the drag origin and keeps the pan |
| Crop.DragFollowsPointer | src/components/pages/cropper/components/crop.component.tsx:122-138 | after pointer down at `from`, a move to `to` shifts the pan by exactly `to - from` when that target is within the limits |
| Crop.ScaleOneLocksPan | src/components/pages/cropper/components/crop.component.tsx:131-137 | at slider 0, with a base image no larger than the container, every pan move during a drag yields pan (0, 0) |
| Crop.Round | src/components/pages/cropper/components/crop.component.tsx:163-164 | the result is the nearest integer to the input, with halves rounded towards +∞ (`Math.round`) |
| Crop.RoundOfInteger | src/components/pages/cropper/components/crop.component.tsx:171-172 | rounding an integer gives that integer back, so at render scale 1 the working size is the output size |
| Crop.OutputLength | src/components/pages/cropper/components/crop.component.tsx:163-164 | output length is at least 1; it is the measured container length when none is requested; otherwise it is the requested length rounded, or 1 when that rounds below 1 |
| Crop.DevicePixelRatio | src/components/pages/cropper/components/crop.component.tsx:167 | the pixel-ratio option wins; otherwise the window's ratio; a missing window or a ratio of 0 reads as 1 |
| Crop.Supersample | src/components/pages/cropper/components/crop.component.tsx:168 | the supersample factor is at least 1: the option when it is ≥ 1, and 1 when it is absent or below 1 |
| Crop.WindowLength | src/components/pages/cropper/components/crop.component.tsx:182-192 | the source window length, converted back to CSS pixels and zoomed, spans exactly the container length |
| Crop.DisplayRoundTrip | src/components/pages/cropper/components/crop.component.tsx:194-196 | mapping from natural coordinates to display offsets (`DisplayOffset`, the centred translate-then-scale transform) and back is the identity in both directions |
| Crop.DisplayOffsetMonotone | src/components/pages/cropper/components/crop.component.tsx:194-196 | the display transform preserves order in both directions |
| Crop.DisplayOfImageEdges | src/components/pages/cropper/components/crop.component.tsx:117-120 | the image edges sit half the scaled base size either side of the pan offset |
| Crop.WindowStart | src/components/pages/cropper/components/crop.component.tsx:194-200 | the unclamped window start is the natural coordinate that the display transform puts at the container's leading edge |
| Crop.CentredWindowDisplay | src/components/pages/cropper/components/crop.component.tsx:190-200 | a window that fills the container and is centred under the container's centre is displayed from one container edge to the other |
| Crop.WindowIsViewportPreimage | src/components/pages/cropper/components/crop.component.tsx:190-200 | the unclamped window's two ends are displayed exactly at the container's two edges |
| Crop.ClampStart | src/components/pages/cropper/components/crop.component.tsx:202-204 | the clamped start is never negative; a window that fits in the image ends inside it; a window already inside is left alone; otherwise the start moves to the nearer edge; a window larger than the image starts at 0 |
| Crop.AxisWindow | src/components/pages/cropper/components/crop.component.tsx:190-204 | along one axis, the window starts at the unclamped start clamped into the image; so it starts at or after 0, ends inside the image when it fits, and spans the container |
| Crop.SourceRect | src/components/pages/cropper/components/crop.component.tsx:182-204 | on each axis on its own, the source rectangle starts at the unclamped start clamped into the image; so x, y ≥ 0, it ends inside the image on each axis where it fits, and each side spans the container |
| Crop.PannedWindowInsideImage | src/components/pages/cropper/components/crop.component.tsx:108-112 | on an axis where the scaled image covers the container, a pan within the limits keeps the unclamped window inside the image |
| Crop.GetCroppedImage | src/components/pages/cropper/components/crop.component.tsx:153-244 | returns null exactly when a ref is missing, an image dimension (displayed or natural) is 0, or a needed canvas context is missing; on success the output size is the requested or measured size rounded and at least 1×1; the working size is the output size times the render scale (`RenderScale`, the pixel ratio times the supersample factor), rounded; the downsample pass happens if and only if the render scale is not 1; and the source rectangle is the clamped preimage of the container |
| Crop.RenderLength | src/components/pages/cropper/components/crop.component.tsx:171-172 | the working length is within half a pixel of output length × render scale, and equals the output length at render scale 1 |
| Crop.CropOfPanWithinLimitsIsViewport | src/components/pages/cropper/components/crop.component.tsx:101-204 | with the pan within the limits and the zoomed image covering the container, the render clamp changes nothing: the exported rectangle starts where the container's edge is displayed |
| Crop.FullImageAtSliderZero | src/components/pages/cropper/components/crop.component.tsx:186-204 | container and base 300×300, natural 1200×1200, slider 0, no pan: rectangle (0, 0, 1200, 1200), output 300×300, no downsample pass |
| Crop.CentredHalfAtSliderHundred | src/components/pages/cropper/components/crop.component.tsx:186-204 | same image, slider 100, no pan: rectangle (300, 300, 600, 600) |
| Crop.DragPinsAtLimit | src/components/pages/cropper/components/crop.component.tsx:128-138 | at slider 100 the limits are (150, 150), and a 400-pixel drag pins the pan at 150 |
| Crop.SliderLeavesPanOutsideLimits | src/components/pages/cropper/components/crop.component.tsx:96-98 | sliding back to 0 keeps pan 150 although the limit is now 0; the true window start is -600, and the render clamp brings the exported rectangle back to the whole image |
| Crop.EmptyContainerStillCrops | src/components/pages/cropper/components/crop.component.tsx:153-204 | a 0×0 container over the 1200×1200 image gives a plan, not null: output 1×1, working size 1×1, source rectangle of size 0 at (600, 600) |
| Crop.TallWindowPinnedToTop | src/components/pages/cropper/components/crop.component.tsx:199-204 | a landscape image in a square container: the window is taller than the image, its true start is -300, and the clamp moves it to 0, while on screen the image top sits 75 CSS pixels below the container top |
| Dropdown.IndexOf | src/components/ui/dropdown.component.tsx:248 | the result is the first position of the item, or -1 exactly when the item is not registered |
| Dropdown.IndexOfDistinct | src/components/ui/dropdown.component.tsx:254 | in a list without repetitions the position of the item at i is i |
| Dropdown.At | src/components/ui/dropdown.component.tsx:249 | an array read yields the element inside the bounds and undefined outside them |
| Dropdown.Register | src/components/ui/dropdown.component.tsx:230-232 | registering appends the item at the end and leaves the highlight alone |
| Dropdown.SettleHighlight | src/components/ui/dropdown.component.tsx:262-265 | with nothing highlighted, the first item (or undefined) becomes highlighted; an existing highlight is kept; items are unchanged |
| Dropdown.RegisterAllAppends | src/components/ui/dropdown.component.tsx:230-232 | registering a sequence of items appends them in mount order and leaves the highlight alone |
| Dropdown.RegisterEachKeepsHighlight | src/components/ui/dropdown.component.tsx:262-265 | once something is highlighted, later registrations with the effect after each only append |
| Dropdown.FirstRegisteredIsHighlighted | src/components/ui/dropdown.component.tsx:203-207 | items mounting into a freshly opened list, whether in one render or one per render, end up registered exactly in order, with the first one highlighted |
| Dropdown.HandleKey | src/components/ui/dropdown.component.tsx:234-258 | the list asks to close if and only if the key is Escape; Escape and other keys leave the highlight unchanged; the arrows move it; items never change |
| Dropdown.ArrowsFromNothing | src/components/ui/dropdown.component.tsx:245-256 | with nothing highlighted, both ArrowUp and ArrowDown highlight the first item |
| Dropdown.ArrowDownSteps | src/components/ui/dropdown.component.tsx:251-256 | for distinct items, ArrowDown from item i < n-1 highlights item i+1 |
| Dropdown.ArrowDownWraps | src/components/ui/dropdown.component.tsx:254-255 | for distinct items, ArrowDown from the last item highlights the first |
| Dropdown.ArrowUpSteps | src/components/ui/dropdown.component.tsx:245-250 | for distinct items, ArrowUp from item i > 0 highlights item i-1 |
| Dropdown.ArrowUpWraps | src/components/ui/dropdown.component.tsx:248-249 | ArrowUp from the first item highlights the last |
| Dropdown.ArrowDownIsSuccessor | src/components/ui/dropdown.component.tsx:251-256 | for a registered item, ArrowDown's target (`ArrowDownTarget`) matches the reference definition: position (i+1) mod n |
| Dropdown.ArrowUpIsPredecessor | src/components/ui/dropdown.component.tsx:245-250 | for a registered item, ArrowUp's target (`ArrowUpTarget`) matches the reference definition: position (i-1+n) mod n |
| Dropdown.ArrowsUndoEachOther | src/components/ui/dropdown.component.tsx:245-256 | for distinct items, ArrowDown then ArrowUp, and ArrowUp then ArrowDown, both return to the highlighted item |
| Dropdown.ArrowsStayOnItems | src/components/ui/dropdown.component.tsx:245-256 | from nothing or a registered item, either arrow on a non-empty list lands on a registered item |
| Dropdown.ArrowsFromUnregistered | src/components/ui/dropdown.component.tsx:245-256 | a highlight that is not registered is a state the list never reaches; from it, ArrowUp would clear the highlight (it reads position -2) and ArrowDown would read position 0, and either way the settling effect highlights the first item again |
| Dropdown.HighlightStaysRegistered | src/components/ui/dropdown.component.tsx:230-265 | invariant: nothing is highlighted or a registered item is; it holds for a freshly mounted list and is preserved by registration, the settling effect and every key press |
| Dropdown.OpenDropdown | src/components/ui/dropdown.component.tsx:104-106 | a trigger click shows the dropdown; a closed dropdown opens with an empty list; an open one is unchanged |
| Dropdown.KeyDown | src/components/ui/dropdown.component.tsx:97-102 | a key press on an open dropdown closes it if and only if the key is Escape, leaving the closed state; otherwise the list is updated as the key handler says |
| Dropdown.ClickCloses | src/components/ui/dropdown.component.tsx:123-134 | a click closes the dropdown if and only if it lands on a DOM node outside the trigger, not counting clicks inside the list when `stopOnClickSelf` is set |
| Dropdown.DocumentClick | src/components/ui/dropdown.component.tsx:119-141 | a closed dropdown ignores clicks; an open one closes, to the closed state, if and only if the click rule says so; it is otherwise unchanged |
| Dropdown.TriggerClickKeepsOpen | src/components/ui/dropdown.component.tsx:104-134 | clicking the trigger of an open dropdown leaves it open with its list intact |
| Dropdown.PopupPosition | src/components/ui/dropdown.component.tsx:112-116 | the popup top is 8 pixels below the trigger's bottom; its left edge is at most the trigger's left and leaves a 20-pixel right margin; it equals the trigger's left whenever that fits |
| Toolbar.AllOptionsListed | src/components/ui/lexical/plugins/toolbar.plugin.tsx:321-377 | every block option appears in the dropdown's option list |
| Toolbar.ParseOption | src/components/ui/lexical/plugins/toolbar.plugin.tsx:321-377 | a found option has exactly the looked-up value; when none is found, no option has that value |
| Toolbar.ParseOptionRoundTrip | src/components/ui/lexical/plugins/toolbar.plugin.tsx:321-377 | looking up an option's value finds that option |
| Toolbar.FormatParagraph | src/components/ui/lexical/plugins/toolbar.plugin.tsx:417-425 | a paragraph is set if and only if the selection is a range selection; otherwise nothing happens |
| Toolbar.FormatHeading | src/components/ui/lexical/plugins/toolbar.plugin.tsx:427-435 | a heading with exactly the given tag is set if and only if the selection is a range selection; otherwise nothing happens |
| Toolbar.FormatList | src/components/ui/lexical/plugins/toolbar.plugin.tsx:437-460 | if the block type differs from the list type, that list is inserted; if it is equal, the option reverts to a paragraph |
| Toolbar.FormatQuote | src/components/ui/lexical/plugins/toolbar.plugin.tsx:462-469 | a quote is set if and only if the block type is not already `quote`; otherwise nothing happens; the selection kind is not checked |
| Toolbar.Format | src/components/ui/lexical/plugins/toolbar.plugin.tsx:379-415 | an unknown value does nothing; each action is traced to its option and preconditions; nothing happens if and only if the value is unknown, a range selection is missing for a paragraph/heading/revert, or quote is chosen on a quote |
| Toolbar.BlockTypeOfOptionElement | src/components/ui/lexical/plugins/toolbar.plugin.tsx:142-147 | the block type reported for each option's element is that option's value: the heading tag, the list type, or the node type |
| Toolbar.UpdateBlockType | src/components/ui/lexical/plugins/toolbar.plugin.tsx:156-174 | the block type is recomputed only under a range selection, as the heading's tag, the list's type or the node's type (`BlockTypeOf`); otherwise it is kept |
| Toolbar.AtMostOneActive | src/components/ui/lexical/plugins/toolbar.plugin.tsx:472-477 | two options active for the same block type are the same option |
| Toolbar.ActiveIffNamed | src/components/ui/lexical/plugins/toolbar.plugin.tsx:477 | an option is active (`IsActive`) if and only if the block type is its value |
| Toolbar.ChoiceIsShown | src/components/ui/lexical/plugins/toolbar.plugin.tsx:379-469 | (assuming `ElementAfter`) after a choice under a range selection, the shown block type is the chosen value; the exception is choosing the list the block already is, which shows `paragraph` |
| Toolbar.ExactlyOneActiveAfterChoice | src/components/ui/lexical/plugins/toolbar.plugin.tsx:472-477 | (assuming `ElementAfter`) after any choice under a range selection, exactly one listed option is shown active |
| Toolbar.ListOptionToggles | src/components/ui/lexical/plugins/toolbar.plugin.tsx:437-460 | (assuming `ElementAfter`) choosing the same list option twice, with the block type updated in between, ends at paragraph (or, starting from that list, at that list) |
| Toolbar.QuoteIsSticky | src/components/ui/lexical/plugins/toolbar.plugin.tsx:462-469 | (assuming `ElementAfter`) choosing quote twice leaves a quote: quote never reverts |
| Toolbar.LabelAsWritten | src/components/ui/lexical/plugins/toolbar.plugin.tsx:472 | the label lookup finds an entry if and only if the block type is an option's value, and that entry is the active option |
| Toolbar.CodeBlockHasNoLabel | src/components/ui/lexical/plugins/toolbar.plugin.tsx:143-147 | a top-level code element under a range selection is reported as `code`, and the label lookup finds no entry for it |
| Toolbar.DropdownLabel | src/components/ui/lexical/plugins/toolbar.plugin.tsx:574-581 | corrected label: the active option when there is one, the paragraph entry otherwise |
| Toolbar.LabelShowsActiveOption | src/components/ui/lexical/plugins/toolbar.plugin.tsx:472-477 | for every reportable element the corrected label is one of the listed options, and an option that is active is the one it shows |
| Throttle.Call | src/hooks/useThrottle.tsx:7-13 | a call runs if and only if nothing has run yet or `now - lastCall ≥ delay`; a run records `now`; a suppressed call changes nothing |
| Throttle.FirstCallRuns | src/hooks/useThrottle.tsx:4 | the first call through a fresh gate always runs |
| Throttle.GateRemembersLastRun | src/hooks/useThrottle.tsx:9-12 | after any sequence of calls, the gate holds the time of the last call that ran (or is unchanged if none ran), and every run is one of the calls made |
| Throttle.RunsAreSpaced | src/hooks/useThrottle.tsx:8-12 | consecutive calls that ran are at least `delay` apart, and the first run is at least `delay` after the one the gate remembers; this holds for any clock, including one that goes back |
| Throttle.NonPositiveDelayRunsAll | src/hooks/useThrottle.tsx:9 | with a non-decreasing clock and `delay ≤ 0`, every call runs |
| Throttle.ClockSetBackSuppresses | src/hooks/useThrottle.tsx:9 | with a positive delay, a call timed before the last run does not run |

## Left out

- Canvas work in `getCroppedImage`: `drawImage`, the circular clip, `toDataURL`, and the format and quality options. These are raster operations of the browser. The model stops at the plan that would be drawn.
- Choosing an image file through `FileReader`, and the state reset that follows a load. This is file I/O.
- IEEE-754 behaviour of JavaScript numbers, including `NaN` pixel ratios and non-finite inputs to `Math.round`. The geometry is over exact reals.
- Crop.PanStart: `preventDefault` on pointer down is a browser side effect with no modelled state.
- Crop.Scale: the slider value is a subset type 0..100. The ranger component enforces that domain and is not part of this model.
- Dropdown: focusing the highlighted item or the trigger, `preventDefault`, the portal, and the DOM containment test behind `contains`. The click target is an input.
- Toolbar: Lexical's own work is not modelled. That covers `$setBlocksType`, `$insertList`, the list commands, the search for the top-level element, text-format toggles (bold, italic, ...), undo and redo, and copy. `Toolbar.ElementAfter` is an assumption about their effect on the block type, not a model of the library.
- Toolbar: the `console.log` calls in the block-type update and the check-list handler, which are logging only.
- Toolbar: `AlignDropdown` and `TextStyleDropdown`, because they only log the chosen value.
- Throttle: arguments passed through to the callback, and React's memoisation of the wrapper. The delay is an integer number of milliseconds.
- Routing, the header, styles, build configuration, the three.js scene, and the debounce hook (which is timer scheduling). None of these is part of this model.
- Collaborative editing, merge, transport and presence. There is no such code in the repository.

## Findings

| source | as written | input that shows it | evidently intended | confidence | as-written member | corrected member |
|---|---|---|---|---|---|---|
| src/components/ui/lexical/plugins/toolbar.plugin.tsx:472 | the dropdown label is `options[blockType]`, which is undefined for a block type that has no option; `formatDropdownLabel` then destructures `label` and `icon` from undefined | a top-level code block under a range selection gives block type `code`; the editor registers `CodeNode` and the markdown shortcuts create code blocks | every block type the toolbar can report gets a label | not executed; read from the code | Toolbar.CodeBlockHasNoLabel | Toolbar.LabelShowsActiveOption |
