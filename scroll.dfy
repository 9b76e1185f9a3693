/**
 * Scroll geometry of the `scrollTo` command: a `{ top, left }` pair computed
 * from one of nine compass names or from an `{ x, y }` pair of pixel counts
 * and percentages. The scrollable extents are W = scrollWidth - clientWidth
 * and H = scrollHeight - clientHeight. Arithmetic is exact (`real`), not
 * double precision.
 */
module Scroll {
  import opened Wrappers
  import opened Values
  import opened Driver
  import opened Subject
  import opened Vocabulary

  /** Where along one axis a compass name points. */
  datatype Third = Start | Middle | End

  function Along(t: Third, extent: int): real {
    match t
    case Start => 0.0
    case Middle => extent as real / 2.0
    case End => extent as real
  }

  function Width(m: Metrics): int { m.scrollWidth - m.clientWidth }

  function Height(m: Metrics): int { m.scrollHeight - m.clientHeight }

  /**
   * The nine compass names, each as a (vertical, horizontal) pair of
   * thirds; `None` for any other name.
   */
  function CompassPoint(name: string): Option<(Third, Third)> {
    if name == "topLeft" then Some((Start, Start))
    else if name == "top" then Some((Start, Middle))
    else if name == "topRight" then Some((Start, End))
    else if name == "left" then Some((Middle, Start))
    else if name == "center" then Some((Middle, Middle))
    else if name == "right" then Some((Middle, End))
    else if name == "bottomLeft" then Some((End, Start))
    else if name == "bottom" then Some((End, Middle))
    else if name == "bottomRight" then Some((End, End))
    else None
  }

  /** One axis of an `{ x, y }` target: a percentage of the extent, or pixels as given. */
  function Axis(c: Coordinate, extent: int): real {
    match c
    case Percent(p) => (extent as real / 100.0) * (p as real)
    case Pixels(v) => v
  }

  /**
   * The offsets the command scrolls to, composed axis by axis from the
   * compass name; an unknown name throws.
   */
  function TargetOffsets(position: ScrollPosition, m: Metrics): (r: Result<Offsets, Error>)
    ensures r.Err? <==> position.NamedPosition? && CompassPoint(position.name).None?
    ensures r.Err? ==> r.error == UnknownPosition(position.name)
  {
    match position
    case NamedPosition(name) =>
      (match CompassPoint(name)
       case Some((vertical, horizontal)) => Ok(Offsets(Along(vertical, Height(m)), Along(horizontal, Width(m))))
       case None => Err(UnknownPosition(name)))
    case Coordinates(x, y) => Ok(Offsets(Axis(y, Height(m)), Axis(x, Width(m))))
  }

  /**
   * The `options` record filled in by the `scrollTo` switch, one assignment
   * per axis, for the document root and for an element alike.
   */
  method ScrollOptions(position: ScrollPosition, el: Metrics) returns (r: Result<Offsets, Error>)
    ensures r == TargetOffsets(position, el)
  {
    var options := Offsets(0.0, 0.0);
    var w, h := el.scrollWidth - el.clientWidth, el.scrollHeight - el.clientHeight;
    match position {
      case NamedPosition(name) =>
        if name == "topLeft" {
          options := options.(top := 0.0);
          options := options.(left := 0.0);
        } else if name == "left" {
          options := options.(top := h as real / 2.0);
          options := options.(left := 0.0);
        } else if name == "bottomLeft" {
          options := options.(top := h as real);
          options := options.(left := 0.0);
        } else if name == "top" {
          options := options.(top := 0.0);
          options := options.(left := w as real / 2.0);
        } else if name == "center" {
          options := options.(top := h as real / 2.0);
          options := options.(left := w as real / 2.0);
        } else if name == "bottom" {
          options := options.(top := h as real);
          options := options.(left := w as real / 2.0);
        } else if name == "topRight" {
          options := options.(top := 0.0);
          options := options.(left := w as real);
        } else if name == "right" {
          options := options.(top := h as real / 2.0);
          options := options.(left := w as real);
        } else if name == "bottomRight" {
          options := options.(top := h as real);
          options := options.(left := w as real);
        } else {
          assert CompassPoint(name).None?;
          return Err(UnknownPosition(name));
        }
      case Coordinates(x, y) =>
        match x {
          case Percent(p) => options := options.(left := (w as real / 100.0) * (p as real));
          case Pixels(v) => options := options.(left := v);
        }
        match y {
          case Percent(p) => options := options.(top := (h as real / 100.0) * (p as real));
          case Pixels(v) => options := options.(top := v);
        }
        assert options == Offsets(Axis(y, Height(el)), Axis(x, Width(el)));
    }
    r := Ok(options);
  }

  /** Every compass name puts each axis at 0, half the extent, or the whole extent. */
  lemma CompassOffsets(name: string, m: Metrics)
    requires CompassPoint(name).Some?
    ensures TargetOffsets(NamedPosition(name), m).Ok?
    ensures TargetOffsets(NamedPosition(name), m).value.top in {0.0, Height(m) as real / 2.0, Height(m) as real}
    ensures TargetOffsets(NamedPosition(name), m).value.left in {0.0, Width(m) as real / 2.0, Width(m) as real}
  {
  }

  /** The corners and the centre. */
  lemma CornersAndCentre(m: Metrics)
    ensures TargetOffsets(NamedPosition("center"), m) == Ok(Offsets(Height(m) as real / 2.0, Width(m) as real / 2.0))
    ensures TargetOffsets(NamedPosition("topLeft"), m) == Ok(Offsets(0.0, 0.0))
    ensures TargetOffsets(NamedPosition("bottomRight"), m) == Ok(Offsets(Height(m) as real, Width(m) as real))
    ensures TargetOffsets(NamedPosition("topRight"), m) == Ok(Offsets(0.0, Width(m) as real))
    ensures TargetOffsets(NamedPosition("bottomLeft"), m) == Ok(Offsets(Height(m) as real, 0.0))
  {
  }

  /**
   * An `{ x, y }` target never throws: each axis is its percentage of that
   * axis's extent, or its pixel count as given.
   */
  lemma CoordinateOffsets(x: Coordinate, y: Coordinate, m: Metrics)
    ensures TargetOffsets(Coordinates(x, y), m).Ok?
    ensures x.Percent? ==> TargetOffsets(Coordinates(x, y), m).value.left == Width(m) as real * x.percentage as real / 100.0
    ensures x.Pixels? ==> TargetOffsets(Coordinates(x, y), m).value.left == x.pixels
    ensures y.Percent? ==> TargetOffsets(Coordinates(x, y), m).value.top == Height(m) as real * y.percentage as real / 100.0
    ensures y.Pixels? ==> TargetOffsets(Coordinates(x, y), m).value.top == y.pixels
  {
  }

  /**
   * The percentages 0, 50 and 100 reach the same offsets as the compass
   * names: `{ x: '0%', y: '0%' }` is `topLeft`, `'50%'` on both axes is
   * `center`, `'100%'` on both is `bottomRight`, and so on for all nine.
   */
  lemma PercentagesMatchCompass(name: string, m: Metrics)
    requires CompassPoint(name).Some?
    ensures var (vertical, horizontal) := CompassPoint(name).value;
            TargetOffsets(Coordinates(Percent(Share(horizontal)), Percent(Share(vertical))), m) ==
            TargetOffsets(NamedPosition(name), m)
  {
    var (vertical, horizontal) := CompassPoint(name).value;
    ShareOfExtent(vertical, Height(m));
    ShareOfExtent(horizontal, Width(m));
  }

  /** The percentage of the extent a third stands for. */
  function Share(t: Third): int {
    match t
    case Start => 0
    case Middle => 50
    case End => 100
  }

  /** That percentage of an extent is where the third points. */
  lemma ShareOfExtent(t: Third, extent: int)
    ensures Axis(Percent(Share(t)), extent) == Along(t, extent)
  {
    var e := extent as real;
    match t
    case Start => assert Axis(Percent(Share(t)), extent) == (e / 100.0) * (0 as real) == 0.0;
    case Middle => assert Axis(Percent(Share(t)), extent) == (e / 100.0) * (50 as real) == e / 2.0;
    case End => assert Axis(Percent(Share(t)), extent) == (e / 100.0) * (100 as real) == e;
  }

  /** Extents 200 by 100: the centre is (50, 100); `{ x: '50%', y: 10 }` is (10, 100). */
  lemma WorkedExample()
    ensures TargetOffsets(NamedPosition("center"), Metrics(300, 100, 150, 50)) == Ok(Offsets(50.0, 100.0))
    ensures TargetOffsets(Coordinates(Percent(50), Pixels(10.0)), Metrics(300, 100, 150, 50)) == Ok(Offsets(10.0, 100.0))
  {
    CornersAndCentre(Metrics(300, 100, 150, 50));
  }
}
