/** The pure helpers behind what the page shows: the colour of a category,
    the text of a step in the step list, and the bounding box that places a
    freehand marker's label. */
module Display {
  import opened Annotation
  import opened Text

  /** `getColor(type)`: green, red, blue and yellow for the four categories,
      black for any other name. */
  function GetColor(name: string): (color: string)
    ensures color == "#000" <==> forall k: Kind :: KindName(k) != name
  {
    if name == KindName(Screw) then "#28a745"
    else if name == KindName(Bolt) then "#dc3545"
    else if name == KindName(Component) then "#007bff"
    else if name == KindName(Custom) then "#ffc107"
    else
      assert forall k: Kind :: KindName(k) != name by {
        forall k: Kind ensures KindName(k) != name {
          if k.Screw? {} else if k.Bolt? {} else if k.Component? {} else {}
        }
      }
      "#000"
  }

  /** No two categories share a colour. */
  lemma ColorsDistinct(k1: Kind, k2: Kind)
    requires k1 != k2
    ensures GetColor(KindName(k1)) != GetColor(KindName(k2))
  {
  }

  /** The category name with its first letter in upper case. */
  function KindLabel(k: Kind): string
  {
    Capitalize(KindName(k))
  }

  /** ` — <trimmed instructions>` when the trimmed instructions are not empty,
      nothing otherwise. */
  function InstructionSuffix(instructions: string): string
  {
    var t := Trim(instructions);
    if t != [] then " \U{2014} " + t else ""
  }

  /** The text of one entry of the step list, `#<number> (<Label>)` followed
      by the instruction suffix: it starts with `#`, ends with the closing
      parenthesis when there are no instructions to show, and otherwise ends
      with the trimmed instructions. */
  function StepLabel(m: Marker): (r: string)
    ensures |r| > 0 && r[0] == '#'
    ensures Trim(m.instructions) == [] ==> r[|r| - 1] == ')'
    ensures var t := Trim(m.instructions);
      t != [] ==> |t| < |r| && r[|r| - |t|..] == t
  {
    "#" + DecimalString(m.number) + " (" + KindLabel(m.kind) + ")" + InstructionSuffix(m.instructions)
  }

  /** The position of the first `c` in `s`, or `|s|` when there is none. */
  function FirstIndexOf(s: string, c: char): nat
  {
    if s == [] || s[0] == c then 0 else 1 + FirstIndexOf(s[1..], c)
  }

  lemma {:induction false} FirstIndexAfterPrefix(a: string, b: string, c: char)
    requires c !in a && b != [] && b[0] == c
    ensures FirstIndexOf(a + b, c) == |a|
  {
    if a == [] {
      assert a + b == b;
    } else {
      assert (a + b)[0] == a[0];
      assert (a + b)[1..] == a[1..] + b;
      FirstIndexAfterPrefix(a[1..], b, c);
    }
  }

  /** A string made of a part without `c` followed by a part starting with
      `c` splits in only one way. */
  lemma SplitAtSeparator(a: string, b: string, a': string, b': string, c: char)
    requires c !in a && c !in a'
    requires b != [] && b[0] == c && b' != [] && b'[0] == c
    requires a + b == a' + b'
    ensures a == a' && b == b'
  {
    FirstIndexAfterPrefix(a, b, c);
    FirstIndexAfterPrefix(a', b', c);
    assert a == (a + b)[..|a|];
    assert a' == (a' + b')[..|a'|];
    assert b == (a + b)[|a|..];
    assert b' == (a' + b')[|a'|..];
  }

  lemma KindLabels(k: Kind)
    ensures KindLabel(k) == match k
      case Screw => "Screw"
      case Bolt => "Bolt"
      case Component => "Component"
      case Custom => "Custom"
  {
  }

  /** The step list entry read as the marker's decimal number after `#`,
      followed by the rest, which starts with a space. */
  lemma StepLabelHead(m: Marker)
    ensures StepLabel(m) == ("#" + DecimalString(m.number)) + StepLabelTail(m)
    ensures ' ' !in "#" + DecimalString(m.number)
  {
  }

  /** What follows the number: ` (<Label>)` and the instruction suffix. */
  function StepLabelTail(m: Marker): string
  {
    " (" + KindLabel(m.kind) + ")" + InstructionSuffix(m.instructions)
  }

  lemma StepLabelTailParts(m: Marker)
    ensures StepLabelTail(m)[2..] == KindLabel(m.kind) + (")" + InstructionSuffix(m.instructions))
    ensures ')' !in KindLabel(m.kind)
  {
    KindLabels(m.kind);
  }

  /** The step list entry of a marker gives back its number, its category and
      its trimmed instructions: two steps that read the same agree on all
      three. */
  lemma StepLabelInjective(m1: Marker, m2: Marker)
    requires StepLabel(m1) == StepLabel(m2)
    ensures m1.number == m2.number && m1.kind == m2.kind
    ensures Trim(m1.instructions) == Trim(m2.instructions)
  {
    var d1, d2 := DecimalString(m1.number), DecimalString(m2.number);
    StepLabelHead(m1);
    StepLabelHead(m2);
    SplitAtSeparator("#" + d1, StepLabelTail(m1), "#" + d2, StepLabelTail(m2), ' ');
    assert d1 == ("#" + d1)[1..] && d2 == ("#" + d2)[1..];
    DecimalRoundTrip(m1.number);
    DecimalRoundTrip(m2.number);
    var i1, i2 := InstructionSuffix(m1.instructions), InstructionSuffix(m2.instructions);
    StepLabelTailParts(m1);
    StepLabelTailParts(m2);
    SplitAtSeparator(KindLabel(m1.kind), ")" + i1, KindLabel(m2.kind), ")" + i2, ')');
    KindLabels(m1.kind);
    KindLabels(m2.kind);
    assert i1 == (")" + i1)[1..] && i2 == (")" + i2)[1..];
    var t1, t2 := Trim(m1.instructions), Trim(m2.instructions);
    if t1 != [] && t2 != [] {
      assert t1 == i1[3..] && t2 == i2[3..];
    }
  }

  /** The bounding box `{minX, minY, maxX, maxY}` of a path. */
  datatype Bounds = Bounds(minX: int, minY: int, maxX: int, maxY: int)

  /** `getPathBounds(path)`: every point lies inside the box and each of its
      four sides passes through a point of the path. The source reads
      `path[0]` first, so its callers pass non-empty paths only. */
  method GetPathBounds(path: seq<Point>) returns (b: Bounds)
    requires |path| > 0
    ensures forall k :: 0 <= k < |path| ==>
      b.minX <= path[k].x <= b.maxX && b.minY <= path[k].y <= b.maxY
    ensures exists k :: 0 <= k < |path| && path[k].x == b.minX
    ensures exists k :: 0 <= k < |path| && path[k].x == b.maxX
    ensures exists k :: 0 <= k < |path| && path[k].y == b.minY
    ensures exists k :: 0 <= k < |path| && path[k].y == b.maxY
  {
    var minX, maxX, minY, maxY := path[0].x, path[0].x, path[0].y, path[0].y;
    for i := 0 to |path|
      invariant forall k :: 0 <= k < i ==>
        minX <= path[k].x <= maxX && minY <= path[k].y <= maxY
      invariant exists k :: 0 <= k < |path| && path[k].x == minX
      invariant exists k :: 0 <= k < |path| && path[k].x == maxX
      invariant exists k :: 0 <= k < |path| && path[k].y == minY
      invariant exists k :: 0 <= k < |path| && path[k].y == maxY
    {
      var p := path[i];
      if p.x < minX { minX := p.x; }
      if p.x > maxX { maxX := p.x; }
      if p.y < minY { minY := p.y; }
      if p.y > maxY { maxY := p.y; }
    }
    b := Bounds(minX, minY, maxX, maxY);
  }
}
