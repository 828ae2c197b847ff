/** The main window's code-behind as the object it is: the render transform
    and the gesture state are fields that the mouse handlers update. What the
    handlers read from WPF (the image shown, the border's size, cursor
    positions, the button, the selected algorithm) arrives as parameters. */
module Window {
  import opened Common
  import opened Viewport
  import opened Pipeline

  /** The mouse buttons the handlers distinguish. */
  datatype Button = Left | Middle | Right

  /** The bitmap shown in `ImgView`: its size in device-independent units and
      in pixels. */
  datatype Shown = Shown(width: real, height: real, pixelWidth: nat, pixelHeight: nat)

  class MainWindow {
    var view: View             // imgScale and imgTranslate
    var isDragging: bool
    var origin: Point          // translation at the middle-button press
    var start: Point           // cursor at the middle-button press
    var isRoiDrawing: bool
    var roiStart: Point        // image point where the ROI drag began
    var roi: Rect              // _currentRoiRect, in image pixels

    /** Identity transform, no gesture, an empty region. */
    constructor()
      ensures view == View(1.0, 1.0, 0.0, 0.0)
      ensures !isDragging && !isRoiDrawing && roi == Rect(0.0, 0.0, 0.0, 0.0)
    {
      view := View(1.0, 1.0, 0.0, 0.0);
      isDragging, isRoiDrawing := false, false;
      origin, start, roiStart := Point(0.0, 0.0), Point(0.0, 0.0), Point(0.0, 0.0);
      roi := Rect(0.0, 0.0, 0.0, 0.0);
    }

    /** While a region is being drawn it lies within the image. */
    predicate RoiValid(shown: Shown)
      reads this
    {
      isRoiDrawing ==>
        Inside(roiStart, shown.pixelWidth, shown.pixelHeight)
        && Within(roi, shown.pixelWidth, shown.pixelHeight)
    }

    /** `FitImageToScreen` (also run on a right-button press): nothing
        happens without an image or when the border or the image has no
        extent. */
    method FitImageToScreen(borderWidth: real, borderHeight: real, image: Option<Shown>)
      requires borderWidth >= 0.0 && borderHeight >= 0.0
      requires image.Some? ==> image.value.width >= 0.0 && image.value.height >= 0.0
      modifies this`view
      ensures if image.None? || borderWidth == 0.0 || borderHeight == 0.0
                 || image.value.width == 0.0 || image.value.height == 0.0
              then view == old(view)
              else view == Fit(borderWidth, borderHeight, image.value.width, image.value.height)
    {
      if image.None? || borderWidth == 0.0 || borderHeight == 0.0 {
        return;
      }
      var img := image.value;
      if img.width == 0.0 || img.height == 0.0 {
        return;
      }
      view := View(1.0, 1.0, 0.0, 0.0);
      var s := Min(borderWidth / img.width, borderHeight / img.height);
      if s > 1.0 {
        s := 1.0;
      }
      view := view.(sx := s * 0.95, sy := s * 0.95);
      var finalWidth := img.width * view.sx;
      var finalHeight := img.height * view.sy;
      view := view.(tx := (borderWidth - finalWidth) / 2.0, ty := (borderHeight - finalHeight) / 2.0);
    }

    /** The mouse wheel at border point `p`. */
    method MouseWheel(hasImage: bool, p: Point, delta: int)
      modifies this`view
      ensures view == if hasImage then Zoom(old(view), p, delta) else old(view)
    {
      if !hasImage {
        return;
      }
      var zoom := if delta > 0 then 1.2 else 1.0 / 1.2;
      view := view.(sx := view.sx * zoom, sy := view.sy * zoom);
      view := view.(tx := p.x - (p.x - view.tx) * zoom, ty := p.y - (p.y - view.ty) * zoom);
    }

    /** `UpdateRoiVisual`: the normalised rectangle is stored, and the
        rectangle to draw on the border is returned. */
    method UpdateRoiVisual(a: Point, b: Point) returns (screen: Rect)
      modifies this`roi
      ensures roi == Normalize(a, b) && screen == OnScreen(roi, view)
    {
      var x := Min(a.x, b.x);
      var y := Min(a.y, b.y);
      var w := Abs(b.x - a.x);
      var h := Abs(b.y - a.y);
      roi := Rect(x, y, w, h);
      screen := Rect(x * view.sx + view.tx, y * view.sy + view.ty, w * view.sx, h * view.sy);
    }

    /** A button press: in an ROI mode the left button starts a region at an
        image point inside the image; otherwise the middle button starts a
        pan from border point `atBorder`. */
    method MouseDown(selected: Option<string>, button: Button, image: Option<Shown>, atImage: Point, atBorder: Point)
      modifies this
      ensures var roiPress := selected.Some? && Contains(selected.value, "ROI") && button == Left && image.Some?;
        && (roiPress && Inside(atImage, image.value.pixelWidth, image.value.pixelHeight) ==>
              isRoiDrawing && roiStart == atImage && roi == Normalize(atImage, atImage)
              && RoiValid(image.value)
              && isDragging == old(isDragging) && view == old(view)
              && start == old(start) && origin == old(origin))
        && (roiPress && !Inside(atImage, image.value.pixelWidth, image.value.pixelHeight) ==>
              unchanged(this))
        && (!roiPress && button == Middle && image.Some? ==>
              isDragging && start == atBorder && origin == Point(old(view).tx, old(view).ty)
              && isRoiDrawing == old(isRoiDrawing) && roiStart == old(roiStart) && roi == old(roi)
              && view == old(view))
        && (!roiPress && !(button == Middle && image.Some?) ==> unchanged(this))
      ensures image.Some? && old(RoiValid(image.value)) ==> RoiValid(image.value)
    {
      if selected.Some? && Contains(selected.value, "ROI") && button == Left && image.Some? {
        var bitmap := image.value;
        if 0.0 <= atImage.x < bitmap.pixelWidth as real && 0.0 <= atImage.y < bitmap.pixelHeight as real {
          isRoiDrawing := true;
          roiStart := atImage;
          var _ := UpdateRoiVisual(atImage, atImage);
          DragWithin(atImage, atImage, bitmap.pixelWidth, bitmap.pixelHeight);
        }
      } else if button == Middle && image.Some? {
        start := atBorder;
        origin := Point(view.tx, view.ty);
        isDragging := true;
      }
    }

    /** The cursor moves: a region being drawn follows the cursor, clamped to
        the image, and then nothing pans; otherwise a pan in progress moves
        the translation with the cursor. */
    method MouseMove(image: Option<Shown>, atImage: Point, atBorder: Point)
      requires isRoiDrawing ==> image.Some?
      modifies this`roi, this`view
      ensures isRoiDrawing ==>
        roi == Normalize(roiStart, Clamp(atImage, image.value.pixelWidth, image.value.pixelHeight))
        && view == old(view)
      ensures !isRoiDrawing && isDragging ==>
        view == old(view).(tx := Pan(origin, start, atBorder).x, ty := Pan(origin, start, atBorder).y)
        && roi == old(roi)
      ensures !isRoiDrawing && !isDragging ==> view == old(view) && roi == old(roi)
      ensures image.Some? && old(RoiValid(image.value)) ==> RoiValid(image.value)
    {
      if isRoiDrawing {
        var bitmap := image.value;
        var current := atImage;
        if current.x < 0.0 { current := current.(x := 0.0); }
        if current.y < 0.0 { current := current.(y := 0.0); }
        if current.x > bitmap.pixelWidth as real { current := current.(x := bitmap.pixelWidth as real); }
        if current.y > bitmap.pixelHeight as real { current := current.(y := bitmap.pixelHeight as real); }
        var _ := UpdateRoiVisual(roiStart, current);
        if Inside(roiStart, bitmap.pixelWidth, bitmap.pixelHeight) {
          DragWithin(roiStart, atImage, bitmap.pixelWidth, bitmap.pixelHeight);
        }
      } else if isDragging {
        view := view.(tx := origin.x + (atBorder.x - start.x), ty := origin.y + (atBorder.y - start.y));
      }
    }

    /** A button release ends a region whatever the button, and a pan only on
        the middle button; the region drawn is kept. */
    method MouseUp(button: Button)
      modifies this`isRoiDrawing, this`isDragging
      ensures !isRoiDrawing
      ensures isDragging == (old(isDragging) && button != Middle)
    {
      if isRoiDrawing {
        isRoiDrawing := false;
      }
      if isDragging && button == Middle {
        isDragging := false;
      }
    }

    /** The crop and save menu items with the corrected guard: the integer
        region handed to the service, or nothing when the region has no
        whole pixel. The guard as written is `Viewport.RegionAsWritten`. */
    method CropRegion() returns (g: Option<Region>)
      ensures g == RegionOf(roi)
      ensures g.Some? ==> g.value.w >= 1 && g.value.h >= 1
    {
      var w := Trunc(roi.w);
      var h := Trunc(roi.h);
      if w < 1 || h < 1 {
        return None;
      }
      return Some(Region(Trunc(roi.x), Trunc(roi.y), w, h));
    }
  }

  /** A region that passed the guard as written with a zero width makes the
      service drop its images: the crop cannot allocate an empty buffer. */
  lemma ThinRoiLosesImage(st: State)
    requires st.source.Some?
    ensures var g := RegionAsWritten(Rect(0.0, 0.0, 0.5, 10.0)).value;
      Crop(st, g.x, g.y, g.w, g.h).source.None?
  {
    RegionAsWrittenEmpty();
  }

  /** Through the corrected guard, a crop of a loaded image always keeps an
      image, of the region's size. */
  lemma CorrectedCropKeepsImage(st: State, roi: Rect)
    requires st.source.Some? && RegionOf(roi).Some?
    ensures var g := RegionOf(roi).value;
      var r := Crop(st, g.x, g.y, g.w, g.h);
      r.source.Some? && r.source.value.width == g.w && r.source.value.height == g.h
  {
  }
}
