/** The annotation state machine of app.js: the module-level state (`image`,
    `mode`, `markers`, `counters`, `drawing`, `currentPathMarker`) as the
    fields of one object, and the event handlers and actions as its methods.
    Pointer positions arrive already mapped to image space. */
module App {
  import opened Annotation
  import opened Text
  import Numbering

  /** Which `alert` `addInstructionsToLast` shows. */
  datatype Notice = NoStepsYet | TypeInstructionsFirst | InstructionsAdded

  class Annotator {
    /** `image.src` of the loaded image, None before the first load. It is
        kept as the text it was set from; the browser's `src` getter would
        give it back resolved against the page address. */
    var image: Option<string>
    var mode: Kind
    var markers: seq<Marker>
    var counters: Counters
    var drawing: bool
    /** `currentPathMarker` as the position of the marker it refers to. None
        when it is null, and also once a reset, an import or an undo has
        removed that marker from `markers`: pushes onto a detached marker are
        never seen again. */
    var current: Option<nat>

    /** Every category has a counter of at least 1, and a current path
        marker exists only while drawing, is a freehand marker of the list and
        has at least the point it was started with. */
    ghost predicate Valid()
      reads this
    {
      && CountersValid(counters)
      && (current.Some? ==>
            && drawing
            && current.value < |markers|
            && markers[current.value].shape.Path?
            && |markers[current.value].shape.points| > 0)
    }

    /** The numbers of each category are 1, ..., k in creation order and its
        counter is k + 1. */
    ghost predicate Numbered()
      reads this
    {
      Numbering.Numbered(markers, counters)
    }

    /** The state when the page is opened. */
    constructor ()
      ensures Valid() && Numbered()
      ensures image == None && mode == Screw && markers == []
      ensures counters == InitialCounters() && !drawing && current == None
    {
      image := None;
      mode := Screw;
      markers := [];
      counters := InitialCounters();
      drawing := false;
      current := None;
      Numbering.NumberedInitial();
    }

    /** The sidebar handler: a category button selects its category. */
    method SetMode(k: Kind)
      modifies this`mode
      ensures mode == k
    {
      mode := k;
    }

    /** `addClickMarker(x, y)`: appends a point marker numbered with the
        current category's counter and bumps only that counter. */
    method AddClickMarker(p: Point)
      requires Valid()
      modifies this`markers, this`counters
      ensures Valid()
      ensures counters == old(counters).Set(mode, old(counters).Get(mode) + 1)
      ensures markers == old(markers) + [Marker(mode, At(p), old(counters).Get(mode), "")]
      ensures old(Numbered()) ==> Numbered()
    {
      var number := counters.Get(mode);
      if Numbered() {
        Numbering.NumberedAppend(markers, counters, Marker(mode, At(p), number, ""));
      }
      counters := counters.Set(mode, number + 1);
      markers := markers + [Marker(mode, At(p), number, "")];
    }

    /** `startFreehand(x, y)`: appends a freehand marker whose path holds the
        one point, numbered and counted like a click marker, makes it the
        current path marker and starts drawing. */
    method StartFreehand(p: Point)
      requires Valid()
      modifies this`markers, this`counters, this`drawing, this`current
      ensures Valid()
      ensures counters == old(counters).Set(mode, old(counters).Get(mode) + 1)
      ensures markers == old(markers) + [Marker(mode, Path([p]), old(counters).Get(mode), "")]
      ensures drawing && current == Some(|old(markers)|)
      ensures old(Numbered()) ==> Numbered()
    {
      var number := counters.Get(mode);
      if Numbered() {
        Numbering.NumberedAppend(markers, counters, Marker(mode, Path([p]), number, ""));
      }
      counters := counters.Set(mode, number + 1);
      current := Some(|markers|);
      markers := markers + [Marker(mode, Path([p]), number, "")];
      drawing := true;
    }

    /** `extendFreehand(x, y)`: while drawing, appends the point to the path of
        the current path marker and to nothing else; otherwise does nothing. */
    method ExtendFreehand(p: Point)
      requires Valid()
      modifies this`markers
      ensures Valid()
      ensures if old(drawing) && old(current).Some?
        then markers == old(markers)[old(current).value := WithPoint(old(markers)[old(current).value], p)]
        else markers == old(markers)
      ensures old(Numbered()) ==> Numbered()
    {
      if !drawing || current.None? {
        return;
      }
      var i := current.value;
      if Numbered() {
        Numbering.NumberedReplace(markers, counters, i, WithPoint(markers[i], p));
      }
      markers := markers[i := WithPoint(markers[i], p)];
    }

    /** `finishFreehand()`: when drawing, stops and forgets the current path
        marker, which stays in the list as it is; otherwise does nothing. */
    method FinishFreehand()
      requires Valid()
      modifies this`drawing, this`current
      ensures Valid()
      ensures old(drawing) ==> !drawing && current == None
      ensures !old(drawing) ==> !drawing && current == old(current)
    {
      if !drawing {
        return;
      }
      drawing := false;
      current := None;
    }

    /** The `mousedown` handler: a click marker in a point category, the
        start of a freehand marker otherwise. No image needs to be loaded. */
    method MouseDown(p: Point)
      requires Valid()
      modifies this`markers, this`counters, this`drawing, this`current
      ensures Valid()
      ensures markers == old(markers)
        + [Marker(mode, if IsPointKind(mode) then At(p) else Path([p]), old(counters).Get(mode), "")]
      ensures counters == old(counters).Set(mode, old(counters).Get(mode) + 1)
      ensures IsPointKind(mode) ==> drawing == old(drawing) && current == old(current)
      ensures !IsPointKind(mode) ==> drawing && current == Some(|old(markers)|)
      ensures old(Numbered()) ==> Numbered()
    {
      if mode == Screw || mode == Bolt {
        AddClickMarker(p);
      } else {
        StartFreehand(p);
      }
    }

    /** The `mousemove` handler: extends the current path while drawing. */
    method MouseMove(p: Point)
      requires Valid()
      modifies this`markers
      ensures Valid()
      ensures if old(drawing) && old(current).Some?
        then markers == old(markers)[old(current).value := WithPoint(old(markers)[old(current).value], p)]
        else markers == old(markers)
      ensures old(Numbered()) ==> Numbered()
    {
      if !drawing {
        return;
      }
      ExtendFreehand(p);
    }

    /** `endDrawIfAny()`, the `mouseup` and `mouseleave` handler. */
    method EndDrawIfAny()
      requires Valid()
      modifies this`drawing, this`current
      ensures Valid()
      ensures !drawing
      ensures current == (if old(drawing) then None else old(current))
    {
      if drawing {
        FinishFreehand();
      }
    }

    /** `undoLast()`: with no markers nothing changes; otherwise the last
        marker is removed and its category's counter set to the larger of 1
        and the removed number. Other counters, the mode and the drawing flag
        stay; a current path marker that was the one removed is detached. */
    method UndoLast()
      requires Valid()
      modifies this`markers, this`counters, this`current
      ensures Valid()
      ensures old(markers) == [] ==> markers == old(markers) && counters == old(counters) && current == old(current)
      ensures old(markers) != [] ==>
        var last := old(markers)[|old(markers)| - 1];
        && markers == old(markers)[..|old(markers)| - 1]
        && counters == old(counters).Set(last.kind, Max(1, last.number))
        && current == (if old(current) == Some(|markers|) then None else old(current))
      ensures old(Numbered()) ==> Numbered()
    {
      if |markers| == 0 {
        return;
      }
      var last := markers[|markers| - 1];
      if Numbered() {
        Numbering.NumberedPop(markers, counters);
      }
      markers := markers[..|markers| - 1];
      counters := counters.Set(last.kind, Max(1, last.number));
      if current == Some(|markers|) {
        current := None;
      }
    }

    /** `addInstructionsToLast()` with the text of the instructions box:
        refused without markers, refused when the text trims to nothing,
        otherwise the trimmed text becomes the instructions of the last marker
        and nothing else changes. */
    method AddInstructionsToLast(text: string) returns (notice: Notice)
      requires Valid()
      modifies this`markers
      ensures Valid()
      ensures notice == NoStepsYet <==> old(markers) == []
      ensures notice == TypeInstructionsFirst <==> old(markers) != [] && Trim(text) == []
      ensures notice == InstructionsAdded ==>
        var n := |old(markers)|;
        markers == old(markers)[n - 1 := old(markers)[n - 1].(instructions := Trim(text))]
      ensures notice != InstructionsAdded ==> markers == old(markers)
      ensures old(Numbered()) ==> Numbered()
    {
      if |markers| == 0 {
        return NoStepsYet;
      }
      var txt := Trim(text);
      if txt == [] {
        return TypeInstructionsFirst;
      }
      var n := |markers|;
      if Numbered() {
        Numbering.NumberedReplace(markers, counters, n - 1, markers[n - 1].(instructions := txt));
      }
      markers := markers[n - 1 := markers[n - 1].(instructions := txt)];
      notice := InstructionsAdded;
    }

    /** The upload handler once the image has decoded: binds the new image,
        empties the marker list and resets every counter to 1. The drawing
        flag is left as it was. */
    method LoadImage(src: string)
      requires Valid()
      modifies this`image, this`markers, this`counters, this`current
      ensures Valid() && Numbered()
      ensures image == Some(src) && markers == [] && counters == InitialCounters() && current == None
    {
      image := Some(src);
      markers := [];
      counters := InitialCounters();
      current := None;
      Numbering.NumberedInitial();
    }

    /** `exportProject()`: nothing without an image, otherwise a document with
        the image source and the markers (and no counters). */
    method ExportProject() returns (doc: Option<Document>)
      ensures doc.None? <==> image.None?
      ensures image.Some? ==> doc == Some(Document(image, Some(markers)))
    {
      if image.None? {
        return None;
      }
      doc := Some(Document(image, Some(markers)));
    }

    /** The import handler on a parsed project file: refused, before anything
        changes, unless `imageSrc` is present and not empty and `markers` is
        an array; otherwise the image and markers are taken over and every
        counter becomes one more than the highest imported number of its
        category, or 1. */
    method ImportProject(doc: Document) returns (accepted: bool)
      requires Valid()
      modifies this`image, this`markers, this`counters, this`current
      ensures Valid()
      ensures accepted <==> doc.imageSrc.Some? && doc.imageSrc.value != "" && doc.markers.Some?
      ensures !accepted ==>
        image == old(image) && markers == old(markers) && counters == old(counters) && current == old(current)
      ensures accepted ==>
        && image == doc.imageSrc && markers == doc.markers.value && current == None
        && counters == Numbering.Rebuilt(markers)
        && forall i :: 0 <= i < |markers| ==> markers[i].number < counters.Get(markers[i].kind)
    {
      if doc.imageSrc.None? || doc.imageSrc.value == "" || doc.markers.None? {
        return false;
      }
      image := doc.imageSrc;
      markers := doc.markers.value;
      counters := Numbering.RebuildCounters(markers);
      current := None;
      accepted := true;
    }
  }

  /** An undo right after a click restores the markers and counters as they
      were before the click. */
  method ClickThenUndo(a: Annotator, p: Point)
    requires a.Valid()
    modifies a
    ensures a.Valid()
    ensures a.markers == old(a.markers) && a.counters == old(a.counters)
  {
    a.AddClickMarker(p);
    a.UndoLast();
  }

  /** A whole freehand stroke (press, moves, release) followed by an undo
      restores the markers and counters as they were before the stroke. */
  method StrokeThenUndo(a: Annotator, start: Point, moves: seq<Point>)
    requires a.Valid() && !IsPointKind(a.mode)
    modifies a
    ensures a.Valid() && !a.drawing
    ensures a.markers == old(a.markers) && a.counters == old(a.counters)
  {
    a.MouseDown(start);
    ghost var n := |old(a.markers)|;
    for i := 0 to |moves|
      invariant a.Valid() && a.drawing && a.current == Some(n)
      invariant |a.markers| == n + 1 && a.markers[..n] == old(a.markers)
      invariant a.markers[n].kind == a.mode && a.markers[n].number == old(a.counters).Get(a.mode)
      invariant a.counters == old(a.counters).Set(a.mode, old(a.counters).Get(a.mode) + 1)
      invariant a.mode == old(a.mode)
    {
      a.MouseMove(moves[i]);
    }
    a.EndDrawIfAny();
    a.UndoLast();
  }

  /** Exporting a project and importing the file into an editor reproduces
      the image and the markers, and, when the exported state was numbered,
      also the counters. */
  method ExportThenImport(a: Annotator, b: Annotator) returns (accepted: bool)
    requires a.Valid() && b.Valid()
    requires a.image.Some? && a.image.value != ""
    modifies b
    ensures accepted && b.Valid()
    ensures b.image == old(a.image) && b.markers == old(a.markers)
    ensures old(a.Numbered()) ==> b.counters == old(a.counters)
  {
    var doc := a.ExportProject();
    if old(a.Numbered()) {
      Numbering.NumberedRebuilt(a.markers, a.counters);
    }
    accepted := b.ImportProject(doc.value);
  }
}
