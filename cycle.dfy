/** Cycling through a fixed six-entry palette the way App does it: find the
    current value's first position with indexOf, step to the next position
    modulo six. Stated for any palette without repeats; App's palette of
    background colours is one. */
module Cycle {

  /** The first position of v in s, or -1 when v does not occur (JavaScript's
      Array.prototype.indexOf). */
  function IndexOf<T(==)>(s: seq<T>, v: T): (i: int)
    ensures -1 <= i < |s|
    ensures i == -1 <==> v !in s
    ensures 0 <= i ==> s[i] == v && forall j :: 0 <= j < i ==> s[j] != v
    decreases |s|
  {
    if s == [] then -1
    else if s[0] == v then 0
    else
      var k := IndexOf(s[1..], v);
      if k == -1 then -1 else k + 1
  }

  predicate Distinct<T(==)>(s: seq<T>)
  {
    forall i, j :: 0 <= i < j < |s| ==> s[i] != s[j]
  }

  /** The entry after c's first position in a six-entry palette, wrapping
      around; a value outside the palette (position -1) gives the first
      entry. The dividend is never negative, so JavaScript's % and Dafny's %
      agree here. */
  function NextIn<T(==)>(palette: seq<T>, c: T): (r: T)
    requires |palette| == 6
    ensures r in palette
    ensures c !in palette ==> r == palette[0]
  {
    palette[(IndexOf(palette, c) + 1) % 6]
  }

  /** On an entry of a palette without repeats, the next value is the
      following entry. */
  lemma NextOfEntry<T>(palette: seq<T>, k: nat)
    requires |palette| == 6 && Distinct(palette) && k < 6
    ensures NextIn(palette, palette[k]) == palette[if k == 5 then 0 else k + 1]
  {
    var i := IndexOf(palette, palette[k]);
    assert i == k;
  }

  function IterateIn<T(==)>(palette: seq<T>, c: T, n: nat): T
    requires |palette| == 6
  {
    if n == 0 then c else NextIn(palette, IterateIn(palette, c, n - 1))
  }

  /** Position reached from entry k after n steps along the palette. */
  function Walk(k: nat, n: nat): nat
  {
    if n == 0 then k else var j := Walk(k, n - 1); if j == 5 then 0 else j + 1
  }

  lemma {:induction false} IterateWalksPalette<T>(palette: seq<T>, k: nat, n: nat)
    requires |palette| == 6 && Distinct(palette) && k < 6
    ensures Walk(k, n) < 6
    ensures IterateIn(palette, palette[k], n) == palette[Walk(k, n)]
  {
    if n > 0 {
      IterateWalksPalette(palette, k, n - 1);
      NextOfEntry(palette, Walk(k, n - 1));
    }
  }

  /** Walking is the source's `(i + 1) % 6` step taken n times. */
  lemma {:induction false} WalkIsModular(k: nat, n: nat)
    requires k < 6
    ensures Walk(k, n) == (k + n) % 6
  {
    if n > 0 {
      WalkIsModular(k, n - 1);
    }
  }

  /** Six steps bring an entry of a palette without repeats back to itself. */
  lemma SixStepsRestore<T>(palette: seq<T>, c: T)
    requires |palette| == 6 && Distinct(palette) && c in palette
    ensures IterateIn(palette, c, 6) == c
  {
    var k :| 0 <= k < 6 && palette[k] == c;
    IterateWalksPalette(palette, k, 6);
    WalkIsModular(k, 6);
  }
}
