# JonnyBox annotation core in Dafny

JonnyBox is a browser tool for annotating a photograph of a device. You load
an image and place numbered steps on it:

- point markers for screws and bolts, placed with one click;
- freehand regions for components and custom areas, drawn by dragging.

You can attach instructions to the most recent step, undo it, and export or
import the project as a JSON document.

This project models the annotation state of `app.js` and proves properties of
it:

- the marker list;
- the per-category next-number table `counters`;
- the drawing flag, and the freehand marker being drawn;
- the pure helpers behind the step list and the canvas labels.

## Modules

- `Annotation` (`annotation.dfy`) holds the records:
  - the category `Kind`, with its name as it appears in the program;
  - points, markers and the parsed project document;
  - the `counters` object `{screw, bolt, component, custom}`, as a four-field record `Counters` with `Get`/`Set`.
- `Text` (`text.dfy`) holds:
  - ECMAScript `trim`, covering the full WhiteSpace and LineTerminator set;
  - `String(n)` for integers, with a parser proving it can be read back;
  - first-letter capitalisation of the category names.
- `Display` (`display.dfy`) holds:
  - `getColor`;
  - the step-list entry text;
  - the bounding-box loop `getPathBounds`.
- `Numbering` (`numbering.dfy`) holds:
  - the numbering invariant: per category, the numbers are 1..k in creation order and the counter is k + 1;
  - the lemmas showing that creating, editing and undoing keep the invariant;
  - the counter rebuild the import handler runs, as a function and as the loop itself.
- `App` (`app.dfy`) holds the class `Annotator`:
  - its fields are the module-level `let` variables of `app.js`;
  - its methods are the actions and the canvas event handlers;
  - it also holds three client methods that chain operations: click then undo, a whole stroke then undo, and export then import.

## How the model represents the JS state

- `currentPathMarker` becomes `current`: the index in `markers` of the marker it refers to.
  - In the JS it becomes a detached object once a reset, an import or an undo removes that marker from `markers`. The model sets `current` to `None` in that case.
  - Pushes onto the detached object are never seen again. In the model, the same moves change nothing.
- Pointer positions arrive already mapped to image space, as `Point`s.
- The upload and import handlers are modelled at the moment the image has decoded. Their argument is what the `FileReader` and `JSON.parse` produced.

## Behaviour of app.js worth knowing

The model follows `app.js`. Some of its behaviour is easy to miss:

- A freehand marker is committed with any number of points. It is in the list from the first point on, and there is no minimum of three points.
- Mouse events are handled whether or not an image is loaded.
- Undo sets the counter of the removed marker's category to `max(1, number)`. It does not decrement that counter.
  - The two agree in every numbered state: see `Numbering.NumberedPop`.
  - They differ after importing markers whose numbers have gaps.
- Undo with no markers does nothing. It does not report an error.
- Export writes only `imageSrc` and `markers`, not the counters. Import always rebuilds the counters from the markers.
- Coordinates are not clamped to the canvas.
- Paths are drawn closed. Drawing is not modelled.

## Model

| member | source | states |
|---|---|---|
| App.Annotator.constructor | app.js:16-21 | The opening state: no image, mode screw, no markers, every counter 1, not drawing, no current path. It is valid and numbered. |
| App.Annotator.SetMode | app.js:239-244 | A category button makes its category the mode. |
| App.Annotator.AddClickMarker | app.js:124-129 | Appends exactly one point marker. It carries the mode, the point, the mode's old counter and empty instructions. Only the mode's counter goes up by one. The numbering invariant is kept. |
| App.Annotator.StartFreehand | app.js:131-137 | Appends a freehand marker whose path is the one point. It is numbered like a click marker. It becomes the current path marker and drawing starts. The numbering invariant is kept. |
| App.Annotator.ExtendFreehand | app.js:139-143 | While drawing with a current marker, the point is appended to that marker's path and to no other marker. Otherwise nothing changes. Numbering is kept. |
| App.Annotator.FinishFreehand | app.js:145-151 | When drawing, it stops and forgets the current marker. The marker list is untouched. When not drawing, nothing changes. |
| App.Annotator.MouseDown | app.js:252-259 | Screw and bolt modes add a click marker. The other modes start a freehand marker. Either way it appends one marker and bumps one counter. |
| App.Annotator.MouseMove | app.js:260-264 | Extends the current path only while drawing. Otherwise the markers are unchanged. |
| App.Annotator.EndDrawIfAny | app.js:265-267 | Afterwards nothing is being drawn. A current marker is dropped only if drawing was on. |
| App.Annotator.UndoLast | app.js:196-202 | With no markers, nothing changes. Otherwise the last marker is removed. Its category's counter becomes `max(1, number)` and every other counter stays. Numbering is kept. |
| App.Annotator.AddInstructionsToLast | app.js:204-212 | Refused exactly when there are no markers. Refused exactly when the text trims to empty. Otherwise only the last marker's instructions change, to the trimmed text. |
| App.Annotator.LoadImage | app.js:216-236 | Binds the new image, empties the markers and resets every counter to 1. The result is numbered. |
| App.Annotator.ExportProject | app.js:154-164 | Produces nothing exactly when no image is loaded. Otherwise the document holds the image source and the markers. |
| App.Annotator.ImportProject | app.js:166-194 | Accepted exactly when `imageSrc` is a non-empty string and `markers` is an array. A refusal changes nothing. Acceptance takes over the image and markers and rebuilds the counters, so each counter is above every imported number of its category. |
| App.ClickThenUndo | app.js:124-129 | An undo right after a click gives back the markers and counters from before the click. |
| App.StrokeThenUndo | app.js:252-267 | Press, any number of moves, release, then undo: the markers and counters are as before the stroke. |
| App.ExportThenImport | app.js:154-194 | Exporting one editor and importing into another reproduces the image and the markers. When the exported state was numbered, the counters are reproduced too. |
| Numbering.NumberedInitial | app.js:19 | The reset state, with no markers and all counters 1, satisfies the numbering invariant. |
| Numbering.NumberedAppend | app.js:125-126 | Appending a marker that takes its category's counter, then bumping that counter, keeps the numbering invariant. |
| Numbering.NumberedPop | app.js:196-199 | In a numbered state the last marker's number is its counter minus one, which is at least 1. So undo's `max(1, number)` is a decrement by one, and the state after undo is numbered. |
| Numbering.NumberedReplace | app.js:141 | Changing a marker's path or instructions, while keeping its category and number, keeps the numbering. |
| Numbering.NumbersOfReplace | app.js:208 | Such an edit leaves the number sequence of every category unchanged. |
| Numbering.NumberedBelow | app.js:125 | In a numbered state every number is at least 1 and below its category's counter. |
| Numbering.NumberedIncreasing | app.js:125 | In a numbered state, numbers strictly increase along each category, so no number repeats within a category. |
| Numbering.Rebuilt | app.js:179-183 | The rebuilt counters are at least 1 and above every number of their category. |
| Numbering.RebuiltAttained | app.js:180-183 | A rebuilt counter is 1 or one more than some number of its category. It is never higher than needed. |
| Numbering.NumberedRebuilt | app.js:179-183 | Rebuilding the counters of a numbered marker list yields exactly the counters that numbered it. |
| Numbering.Bump | app.js:182 | One step of the rebuild loop. The marker's category counter becomes the larger of itself and the number plus one. The other counters stay. |
| Numbering.RebuildCounters | app.js:180-183 | The import loop computes `Rebuilt` of the imported markers. |
| Display.GetColor | app.js:24-31 | The colour is `#000` exactly when the name is none of the four category names. |
| Display.ColorsDistinct | app.js:24-31 | The four categories have four different colours. |
| Display.StepLabel | app.js:116-118 | The step-list entry `#<number> (<Label>)`, then ` — <trimmed instructions>` when those are not empty. It starts with `#`. With no instructions it ends with `)`; otherwise it ends with the trimmed instructions. |
| Display.StepLabelInjective | app.js:116-118 | Two step-list entries that read the same agree on the number, the category and the trimmed instructions. |
| Display.GetPathBounds | app.js:100-109 | Every point of the path lies in the box, and each side of the box passes through a point of the path. |
| Text.Trim | app.js:206 | The result is empty exactly when the text is all white space. A non-empty result neither starts nor ends with white space. It is the middle of the text, with only white space cut away on either side. |
| Text.TrimIdempotent | app.js:117 | Trimming an already trimmed text changes nothing. So a step whose instructions were set by `AddInstructionsToLast` (app.js:206-208) shows exactly what was stored. Imported instructions are stored as they are and shown trimmed. |
| Text.DecimalString | app.js:118 | `String(n)` of an integer. A minus sign appears exactly when `n` is negative. The rest is decimal digits with no leading zero, except for `0` itself. |
| Text.Capitalize | app.js:116 | `charAt(0).toUpperCase() + slice(1)`. The length and every character after the first are kept. The first character is upper-cased when it is a lower-case ASCII letter and kept otherwise. |
| Text.DecimalRoundTrip | app.js:118 | `String(n)` reads back as `n`. |
| Annotation.Counters.Set | app.js:182 | Setting one category's counter changes that counter only. |
| Annotation.InitialCounters | app.js:19 | Every counter of the initial table is 1. |

## Left out

- Window-to-image coordinate mapping (`getCanvasCoordinates`): it is floating-point arithmetic on DOM geometry. Points enter the model already mapped.
- Drawing (`clearCanvas`, `drawImageToCanvas`, `redraw`, `drawAllMarkers`), the DOM list in `rebuildMarkerList`, and `alert`: these are output only. The step text itself is `Display.StepLabel`, and the alert choice is `App.Notice`.
- `FileReader`, `Image` decoding, `Blob`, download and `JSON.parse`/`JSON.stringify`: these are I/O.
  - The upload and import handlers are modelled at the image's `onload`. `ImportProject` takes the parsed document as its argument.
  - In the source the `image` variable of an import is replaced before the new image decodes. The model makes the whole import one step.
- Marker entries in an imported file that are not well-formed (a missing or unknown `type`, a non-numeric `number`) are not modelled. Imported markers are typed records with integer numbers.
- App.Annotator.ImportProject, Numbering.Rebuilt, App.Annotator.AddClickMarker, App.Annotator.StartFreehand: the model's marker numbers and counters are unbounded integers. In app.js they are JavaScript numbers (doubles), and `m.number + 1` (app.js:182) and `counters[mode]++` (app.js:125, 132) stop increasing at 2^53. From there on an imported number can equal its counter, and a new marker can repeat a number. The model's promises that every number is below its counter and that each creation bumps the counter by one hold only below 2^53.
- A truthy `imageSrc` that is not a string is outside the model's `Document`.
- App.Annotator.LoadImage: the upload handler replaces `image` as soon as the file is read, before the new image decodes. Resetting the markers and counters waits for the decode. The model makes the whole upload one step. So it does not capture a state where an image that never decodes is already bound to the old markers and counters, and export would write the new source with the old markers.
- App.Annotator.ImportProject: for the same reason, the model takes over `image` only together with the markers and the rebuilt counters.
- App.Annotator.ExportProject: it writes `imageSrc` as it was set. The browser's `image.src` returns the address resolved against the page, so a relative `imageSrc` comes back absolute after an import and export.
- Canvas resizing to the image size: it only affects drawing.
- Clearing the instructions box after a successful `AddInstructionsToLast`: the box is DOM state.
- `SetMode` takes one of the four categories. The model cannot pick up an unknown `data-mode` value, which in the source would make the next counter `NaN`.
- `Text.Capitalize` upper-cases ASCII letters only. That is enough for the four category names, but not for the full Unicode `toUpperCase`.
- `Text.DecimalString` is `String(n)` for integers. It does not give the exponent form JavaScript uses for magnitudes of 10^21 and above.
- The object identity of `currentPathMarker`: a marker that has been removed is modelled as detached (`current == None`). Aliasing between that object and a list entry is not modelled beyond that.
