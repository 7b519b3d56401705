/** Step numbering. Each category numbers its own markers; `counters[t]` is
    the number the next marker of category `t` gets. Creating, undoing and
    editing keep the numbers of each category equal to 1, 2, ..., k in
    creation order with `counters[t] == k + 1`; importing a project rebuilds
    the counters from the imported numbers. */
module Numbering {
  import opened Annotation

  /** The numbers of the markers of category `t`, in marker order. */
  function NumbersOf(ms: seq<Marker>, t: Kind): (ns: seq<int>)
    ensures |ns| <= |ms|
  {
    if ms == [] then []
    else NumbersOf(ms[..|ms| - 1], t) + (if ms[|ms| - 1].kind == t then [ms[|ms| - 1].number] else [])
  }

  /** `[1, 2, ..., n]` */
  function Span(n: nat): (s: seq<int>)
    ensures |s| == n
  {
    seq(n, i => i + 1)
  }

  /** The numbering invariant: for every category `t`, the numbers of its
      markers in creation order are exactly 1, 2, ..., k, and the counter of
      `t` is k + 1. */
  ghost predicate Numbered(ms: seq<Marker>, cs: Counters)
  {
    forall t: Kind :: cs.Get(t) >= 1 && NumbersOf(ms, t) == Span(cs.Get(t) - 1)
  }

  /** The reset state (no markers, every counter 1) is numbered. */
  lemma NumberedInitial()
    ensures Numbered([], InitialCounters())
  {
  }

  /** Appending a marker that takes its category's counter and bumping that
      counter keeps the numbering. */
  lemma NumberedAppend(ms: seq<Marker>, cs: Counters, m: Marker)
    requires Numbered(ms, cs) && m.number == cs.Get(m.kind)
    ensures Numbered(ms + [m], cs.Set(m.kind, m.number + 1))
  {
    var ms' := ms + [m];
    assert ms'[..|ms'| - 1] == ms;
    assert Span(m.number) == Span(m.number - 1) + [m.number];
  }

  /** In a numbered state the last marker holds the highest number of its
      category, one below the counter, and removing it while setting that
      counter to the removed number keeps the numbering. */
  lemma NumberedPop(ms: seq<Marker>, cs: Counters)
    requires Numbered(ms, cs) && ms != []
    ensures var m := ms[|ms| - 1];
      && cs.Get(m.kind) >= 2 && m.number == cs.Get(m.kind) - 1
      && Numbered(ms[..|ms| - 1], cs.Set(m.kind, m.number))
  {
    var m := ms[|ms| - 1];
    var ms' := ms[..|ms| - 1];
    var c := cs.Get(m.kind);
    assert NumbersOf(ms, m.kind) == NumbersOf(ms', m.kind) + [m.number];
    assert c >= 2;
    assert Span(c - 1) == Span(c - 2) + [c - 1];
    assert m.number == NumbersOf(ms, m.kind)[c - 2] == c - 1;
    forall t: Kind
      ensures cs.Set(m.kind, m.number).Get(t) >= 1
      ensures NumbersOf(ms', t) == Span(cs.Set(m.kind, m.number).Get(t) - 1)
    {
      if t != m.kind {
        assert NumbersOf(ms, t) == NumbersOf(ms', t);
      }
    }
  }

  /** Replacing a marker by one of the same category and number leaves the
      numbers of every category as they were. */
  lemma {:induction false} NumbersOfReplace(ms: seq<Marker>, i: nat, m: Marker, t: Kind)
    requires i < |ms| && m.kind == ms[i].kind && m.number == ms[i].number
    ensures NumbersOf(ms[i := m], t) == NumbersOf(ms, t)
  {
    var ms' := ms[i := m];
    if i == |ms| - 1 {
      assert ms'[..|ms'| - 1] == ms[..|ms| - 1];
    } else {
      assert ms'[..|ms'| - 1] == ms[..|ms| - 1][i := m];
      NumbersOfReplace(ms[..|ms| - 1], i, m, t);
    }
  }

  /** Editing a marker without touching its category or number (extending its
      path, setting its instructions) keeps the numbering. */
  lemma NumberedReplace(ms: seq<Marker>, cs: Counters, i: nat, m: Marker)
    requires Numbered(ms, cs)
    requires i < |ms| && m.kind == ms[i].kind && m.number == ms[i].number
    ensures Numbered(ms[i := m], cs)
  {
    forall t: Kind ensures NumbersOf(ms[i := m], t) == NumbersOf(ms, t) {
      NumbersOfReplace(ms, i, m, t);
    }
  }

  /** In a numbered state every marker's number is at least 1 and below its
      category's counter. */
  lemma {:induction false} NumberedBelow(ms: seq<Marker>, cs: Counters)
    requires Numbered(ms, cs)
    ensures forall i :: 0 <= i < |ms| ==> 1 <= ms[i].number < cs.Get(ms[i].kind)
  {
    if ms != [] {
      var m := ms[|ms| - 1];
      var ms' := ms[..|ms| - 1];
      NumberedPop(ms, cs);
      NumberedBelow(ms', cs.Set(m.kind, m.number));
      assert forall i :: 0 <= i < |ms'| ==> ms[i] == ms'[i];
    }
  }

  /** In a numbered state numbers strictly increase along the markers of each
      category, so no number is used twice within a category. */
  lemma {:induction false} NumberedIncreasing(ms: seq<Marker>, cs: Counters)
    requires Numbered(ms, cs)
    ensures forall i, j :: 0 <= i < j < |ms| && ms[i].kind == ms[j].kind ==> ms[i].number < ms[j].number
  {
    if ms != [] {
      var m := ms[|ms| - 1];
      var ms' := ms[..|ms| - 1];
      var cs' := cs.Set(m.kind, m.number);
      NumberedPop(ms, cs);
      NumberedBelow(ms', cs');
      NumberedIncreasing(ms', cs');
      assert forall i :: 0 <= i < |ms'| ==> ms[i] == ms'[i];
    }
  }

  /** One step of the import loop: the counter of the marker's category is
      raised to one above its number if it is not already above it; the
      other counters stay. */
  function Bump(cs: Counters, m: Marker): (cs': Counters)
    ensures cs'.Get(m.kind) == Max(cs.Get(m.kind), m.number + 1)
    ensures forall u: Kind :: u != m.kind ==> cs'.Get(u) == cs.Get(u)
  {
    if cs.Get(m.kind) <= m.number then cs.Set(m.kind, m.number + 1) else cs
  }

  /** The counters import rebuilds from a marker list: the initial table
      with the markers bumped in order. Every counter is at least 1 and
      above every number of its category. */
  function Rebuilt(ms: seq<Marker>): (cs: Counters)
    ensures CountersValid(cs)
    ensures forall i :: 0 <= i < |ms| ==> ms[i].number < cs.Get(ms[i].kind)
  {
    if ms == [] then
      InitialCounters()
    else
      var cs' := Rebuilt(ms[..|ms| - 1]);
      assert forall i :: 0 <= i < |ms| - 1 ==> ms[i] == ms[..|ms| - 1][i];
      Bump(cs', ms[|ms| - 1])
  }

  /** A rebuilt counter is 1 when its category has no marker, and otherwise
      one more than the largest number of that category (or 1 if that is
      larger): it is never higher than it has to be. */
  lemma {:induction false} RebuiltAttained(ms: seq<Marker>, t: Kind)
    ensures Rebuilt(ms).Get(t) == 1
      || exists i :: 0 <= i < |ms| && ms[i].kind == t && Rebuilt(ms).Get(t) == ms[i].number + 1
  {
    if ms != [] {
      var ms' := ms[..|ms| - 1];
      RebuiltAttained(ms', t);
      if Rebuilt(ms).Get(t) != Rebuilt(ms').Get(t) {
        assert ms[|ms| - 1].kind == t;
      } else if Rebuilt(ms').Get(t) != 1 {
        var i :| 0 <= i < |ms'| && ms'[i].kind == t && Rebuilt(ms').Get(t) == ms'[i].number + 1;
        assert ms[i] == ms'[i];
      }
    }
  }

  /** Rebuilding the counters of a numbered marker list gives back exactly
      the counters that numbered it: export followed by import loses no
      numbering state, though export does not write the counters. */
  lemma {:induction false} NumberedRebuilt(ms: seq<Marker>, cs: Counters)
    requires Numbered(ms, cs)
    ensures Rebuilt(ms) == cs
  {
    if ms == [] {
      assert forall t: Kind :: |Span(cs.Get(t) - 1)| == 0;
      CountersEqual(Rebuilt(ms), cs);
    } else {
      var m := ms[|ms| - 1];
      NumberedPop(ms, cs);
      NumberedRebuilt(ms[..|ms| - 1], cs.Set(m.kind, m.number));
      CountersEqual(cs.Set(m.kind, m.number).Set(m.kind, m.number + 1), cs);
    }
  }

  /** The counter rebuild loop of the import handler. */
  method RebuildCounters(ms: seq<Marker>) returns (cs: Counters)
    ensures cs == Rebuilt(ms)
    ensures CountersValid(cs)
    ensures forall i :: 0 <= i < |ms| ==> ms[i].number < cs.Get(ms[i].kind)
  {
    cs := InitialCounters();
    for i := 0 to |ms|
      invariant cs == Rebuilt(ms[..i])
    {
      var m := ms[i];
      assert ms[..i + 1][..i] == ms[..i];
      if cs.Get(m.kind) <= m.number {
        cs := cs.Set(m.kind, m.number + 1);
      }
    }
    assert ms[..|ms|] == ms;
  }
}
