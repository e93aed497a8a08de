/** The main window's background widget: an optional user image, and a dark
    overlay whose strength is a percentage kept between 0 and 100. Painting
    itself is Qt's; only which image is drawn, and where, is modelled. */
module Widgets {
  import opened Text

  /** `max(0, min(100, opacity))` */
  function ClampOpacity(x: int): (r: int)
    ensures 0 <= r <= 100
    ensures 0 <= x <= 100 ==> r == x
    ensures x < 0 ==> r == 0
    ensures x > 100 ==> r == 100
  {
    if x < 0 then 0 else if x > 100 then 100 else x
  }

  /** Clamping a clamped value changes nothing. */
  lemma ClampIdempotent(x: int)
    ensures ClampOpacity(ClampOpacity(x)) == ClampOpacity(x)
  {
  }

  /** Clamping keeps the order of values. */
  lemma ClampMonotone(x: int, y: int)
    requires x <= y
    ensures ClampOpacity(x) <= ClampOpacity(y)
  {
  }

  /** The image a paint draws: the user's when a non-empty path is set and
      that file exists, else the bundled background. */
  datatype Background = Custom(path: string) | Bundled

  function BackgroundFor(custom: Option<string>, existing: set<string>): (b: Background)
    ensures b.Custom? <==> custom.Some? && custom.value != "" && custom.value in existing
    ensures b.Custom? ==> b.path == custom.value
  {
    if custom.Some? && custom.value != "" && custom.value in existing then Custom(custom.value) else Bundled
  }

  /** Where a scaled user image is drawn so that it is centred: Python's
      floor division by 2, which is what Dafny's `/` does for a positive
      divisor. */
  function CentreOffset(widget: int, image: int): (o: int)
    ensures 2 * o <= widget - image < 2 * o + 2
  {
    (widget - image) / 2
  }

  /** An image as wide as the widget sits at 0, and one two pixels wider or
      narrower moves by one pixel the other way. */
  lemma CentreOffsetShifts(widget: int, image: int)
    ensures CentreOffset(widget, widget) == 0
    ensures CentreOffset(widget, image + 2) == CentreOffset(widget, image) - 1
  {
  }

  class BackgroundWidget {
    var customBackground: Option<string>
    var overlayOpacity: int

    ghost predicate Valid()
      reads this
    {
      0 <= overlayOpacity <= 100
    }

    constructor()
      ensures Valid()
      ensures customBackground.None? && overlayOpacity == 50
    {
      customBackground := None;
      overlayOpacity := 50;
    }

    /** `set_background_image`: the path is stored as given. */
    method SetBackgroundImage(path: Option<string>)
      requires Valid()
      modifies this
      ensures Valid()
      ensures customBackground == path && overlayOpacity == old(overlayOpacity)
    {
      customBackground := path;
    }

    /** `set_overlay_opacity`: the value is clamped into 0..100. */
    method SetOverlayOpacity(opacity: int)
      requires Valid()
      modifies this
      ensures Valid()
      ensures overlayOpacity == ClampOpacity(opacity)
      ensures customBackground == old(customBackground)
    {
      overlayOpacity := if 0 > (if 100 < opacity then 100 else opacity) then 0
                        else (if 100 < opacity then 100 else opacity);
    }

    /** Setting the stored value again leaves the widget as it is. A lemma
        cannot read the widget's fields, so this property of the object's
        state is stated as a method whose body is the one call. */
    method ReapplyOpacity()
      requires Valid()
      modifies this
      ensures Valid()
      ensures overlayOpacity == old(overlayOpacity) && customBackground == old(customBackground)
    {
      SetOverlayOpacity(overlayOpacity);
    }
  }
}
