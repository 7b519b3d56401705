/** The records the annotation state of app.js is made of: marker categories,
    image-space points, marker records, the per-category counter table and the
    parsed content of a project file. */
module Annotation {

  datatype Option<+T> = None | Some(value: T)

  /** A marker category (the `mode` and each marker's `type`). Screws and bolts
      are placed with one click; components and custom regions are drawn
      freehand. */
  datatype Kind = Screw | Bolt | Component | Custom

  /** The category's name as it appears in the program and in project files. */
  function KindName(k: Kind): string
  {
    match k
    case Screw => "screw"
    case Bolt => "bolt"
    case Component => "component"
    case Custom => "custom"
  }

  /** The categories the mouse-down handler turns into a click marker. */
  predicate IsPointKind(k: Kind)
  {
    k == Screw || k == Bolt
  }

  /** Image-space coordinates. The source's coordinates are fractional
      numbers; integers stand in for them here, because only their order is
      used (by the bounding box of a path). */
  datatype Point = Point(x: int, y: int)

  /** A click marker stores one point (`x`, `y`); a freehand marker stores its
      `path`. */
  datatype Shape = At(at: Point) | Path(points: seq<Point>)

  /** One step: `{type, x, y, number, instructions}` or
      `{type, path, number, instructions}`. */
  datatype Marker = Marker(kind: Kind, shape: Shape, number: int, instructions: string)

  /** The freehand marker `m` after one more point was pushed onto its path. */
  function WithPoint(m: Marker, p: Point): Marker
    requires m.shape.Path?
  {
    m.(shape := Path(m.shape.points + [p]))
  }

  /** A project file after parsing: `imageSrc` is None when the field is
      missing or holds a falsy value other than `""` (`null`, `false`, `0`);
      a truthy value that is not a string has no representation here.
      `markers` is None when the field is not an array. Export writes exactly
      these two fields. */
  datatype Document = Document(imageSrc: Option<string>, markers: Option<seq<Marker>>)

  /** The next-number table `counters`: the object
      `{ screw, bolt, component, custom }`, one entry per category. */
  datatype Counters = Counters(screw: int, bolt: int, component: int, custom: int) {

    /** `counters[t]` */
    function Get(t: Kind): int
    {
      match t
      case Screw => screw
      case Bolt => bolt
      case Component => component
      case Custom => custom
    }

    /** `counters[t] = v`: the entry of `t` becomes `v`, the others stay. */
    function Set(t: Kind, v: int): (cs: Counters)
      ensures cs.Get(t) == v
      ensures forall u: Kind :: u != t ==> cs.Get(u) == Get(u)
    {
      match t
      case Screw => this.(screw := v)
      case Bolt => this.(bolt := v)
      case Component => this.(component := v)
      case Custom => this.(custom := v)
    }
  }

  /** Two tables with the same entry for every category are the same. */
  lemma CountersEqual(a: Counters, b: Counters)
    requires forall t: Kind :: a.Get(t) == b.Get(t)
    ensures a == b
  {
    assert a.Get(Screw) == b.Get(Screw) && a.Get(Bolt) == b.Get(Bolt);
    assert a.Get(Component) == b.Get(Component) && a.Get(Custom) == b.Get(Custom);
  }

  /** No counter is below its initial 1. */
  ghost predicate CountersValid(cs: Counters)
  {
    forall t: Kind :: cs.Get(t) >= 1
  }

  /** `{ screw: 1, bolt: 1, component: 1, custom: 1 }` */
  function InitialCounters(): (cs: Counters)
    ensures forall t: Kind :: cs.Get(t) == 1
  {
    Counters(1, 1, 1, 1)
  }

  /** `Math.max(a, b)` */
  function Max(a: int, b: int): int
  {
    if a >= b then a else b
  }
}
