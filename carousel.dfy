/**
 * The project showcase's image carousel (components/Projects.tsx).
 *
 * The component keeps one table from project id to the index of the image
 * currently shown.  The arrows step an entry forward or back with wrap-around,
 * a dot sets it directly, and a project without an entry shows image 0.
 * Every update is a copy of the table with one key replaced.
 */
module Carousel {
  import opened Wrappers

  /** The component's state: project id to current image index. */
  type IndexTable = map<string, int>

  /**
   * JavaScript's `%` on numbers: the remainder truncates toward zero, so it
   * takes the sign of the dividend (Dafny's own `%` never goes negative).
   */
  function JsRem(a: int, b: int): (r: int)
    requires b > 0
    ensures a >= 0 ==> 0 <= r < b
    ensures a < 0 ==> -b < r <= 0
    ensures (a - r) % b == 0
  {
    if a >= 0 then
      DivMod(a, b);
      ModOfMultiple(a / b, b);
      a % b
    else
      DivMod(-a, b);
      ModOfMultiple(-((-a) / b), b);
      -((-a) % b)
  }

  /** Euclidean division, as Dafny defines it for a positive divisor. */
  lemma DivMod(x: int, m: int)
    requires m > 0
    ensures x == (x / m) * m + x % m && 0 <= x % m < m
  {
  }

  lemma MulAtLeast(d: int, m: int)
    requires d >= 1 && m > 0
    ensures d * m >= m
  {
  }

  /** Quotient and remainder are unique. */
  lemma ModUnique(x: int, m: int, q: int, r: int)
    requires m > 0 && 0 <= r < m && x == q * m + r
    ensures x % m == r && x / m == q
  {
    DivMod(x, m);
    var d := q - x / m;
    assert d * m == x % m - r by {
      assert d * m == q * m - (x / m) * m;
    }
    if d >= 1 {
      MulAtLeast(d, m);
      assert false;
    } else if d <= -1 {
      MulAtLeast(-d, m);
      assert false;
    }
  }

  lemma ModOfMultiple(q: int, m: int)
    requires m > 0
    ensures (q * m) % m == 0
  {
    ModUnique(q * m, m, q, 0);
  }

  /** `activeImageIndex[id] || 0`: a missing entry reads as image 0. */
  function CurrentIndex(table: IndexTable, id: string): (i: int)
    ensures id in table ==> i == table[id]
    ensures id !in table ==> i == 0
  {
    if id in table then table[id] else 0
  }

  /** The entry for `id` names one of the project's `total` images. */
  predicate InRange(table: IndexTable, id: string, total: int)
  {
    0 <= CurrentIndex(table, id) < total
  }

  /** The table after one key was replaced: every other entry is kept. */
  predicate UpdatedAt(before: IndexTable, after: IndexTable, id: string, v: int)
  {
    && after.Keys == before.Keys + {id}
    && after[id] == v
    && forall k :: k in before && k != id ==> after[k] == before[k]
  }

  /** `handleNextImage(projectId, totalImages)`. */
  function NextImage(table: IndexTable, id: string, total: int): (r: IndexTable)
    requires total > 0
    ensures UpdatedAt(table, r, id, JsRem(CurrentIndex(table, id) + 1, total))
  {
    table[id := JsRem(CurrentIndex(table, id) + 1, total)]
  }

  /** `handlePrevImage(projectId, totalImages)`. */
  function PrevImage(table: IndexTable, id: string, total: int): (r: IndexTable)
    requires total > 0
    ensures UpdatedAt(table, r, id, JsRem(CurrentIndex(table, id) - 1 + total, total))
  {
    table[id := JsRem(CurrentIndex(table, id) - 1 + total, total)]
  }

  /**
   * A click on dot `idx`: the dots are drawn from the image list, so `idx`
   * is always the position of one of the `total` images.
   */
  function SelectImage(table: IndexTable, id: string, idx: int, total: int): (r: IndexTable)
    requires 0 <= idx < total
    ensures UpdatedAt(table, r, id, idx)
    ensures InRange(r, id, total)
  {
    table[id := idx]
  }

  /** Arrows and dots are rendered only for a project with several images. */
  predicate ControlsShown(total: int)
  {
    total > 1
  }

  /** The counter under the image, `currentImageIndex + 1`. */
  function DisplayedCounter(table: IndexTable, id: string, total: int): (n: int)
    requires InRange(table, id, total)
    ensures 1 <= n <= total
    ensures n - 1 == CurrentIndex(table, id)
  {
    CurrentIndex(table, id) + 1
  }

  /** `project.images[currentImageIndex]`: `undefined` when out of range. */
  function ShownImage(images: seq<string>, table: IndexTable, id: string): (r: Option<string>)
    ensures r.Some? <==> InRange(table, id, |images|)
    ensures r.Some? ==> r.value == images[CurrentIndex(table, id)]
  {
    var i := CurrentIndex(table, id);
    if 0 <= i < |images| then Some(images[i]) else None
  }

  /** Dot `idx` is highlighted when it is the current image. */
  predicate DotActive(table: IndexTable, id: string, idx: int)
  {
    idx == CurrentIndex(table, id)
  }

  /** Exactly one dot is highlighted whenever the index is in range. */
  lemma ExactlyOneActiveDot(table: IndexTable, id: string, total: int)
    requires InRange(table, id, total)
    ensures exists idx :: 0 <= idx < total && DotActive(table, id, idx)
    ensures forall i, j :: 0 <= i < total && 0 <= j < total && DotActive(table, id, i) && DotActive(table, id, j) ==> i == j
  {
    assert DotActive(table, id, CurrentIndex(table, id));
  }

  /** Next keeps an in-range index in range. */
  lemma NextStaysInRange(table: IndexTable, id: string, total: int)
    requires InRange(table, id, total)
    ensures InRange(NextImage(table, id, total), id, total)
  {
  }

  /** Prev keeps an in-range index in range. */
  lemma PrevStaysInRange(table: IndexTable, id: string, total: int)
    requires InRange(table, id, total)
    ensures InRange(PrevImage(table, id, total), id, total)
  {
  }

  /** Next steps forward by one and wraps from the last image to the first. */
  lemma NextSteps(table: IndexTable, id: string, total: int)
    requires InRange(table, id, total)
    ensures CurrentIndex(NextImage(table, id, total), id) ==
            if CurrentIndex(table, id) == total - 1 then 0 else CurrentIndex(table, id) + 1
  {
  }

  /** Prev steps back by one and wraps from the first image to the last. */
  lemma PrevSteps(table: IndexTable, id: string, total: int)
    requires InRange(table, id, total)
    ensures CurrentIndex(PrevImage(table, id, total), id) ==
            if CurrentIndex(table, id) == 0 then total - 1 else CurrentIndex(table, id) - 1
  {
  }

  /** A project never visited: next shows image `1 % total`, prev the last image. */
  lemma FromAbsentEntry(table: IndexTable, id: string, total: int)
    requires id !in table && total > 0
    ensures NextImage(table, id, total)[id] == 1 % total
    ensures PrevImage(table, id, total)[id] == total - 1
  {
  }

  /** Prev undoes next. */
  lemma PrevAfterNext(table: IndexTable, id: string, total: int)
    requires InRange(table, id, total)
    ensures CurrentIndex(PrevImage(NextImage(table, id, total), id, total), id) == CurrentIndex(table, id)
    ensures id in table ==> PrevImage(NextImage(table, id, total), id, total) == table
  {
    NextSteps(table, id, total);
    NextStaysInRange(table, id, total);
    PrevSteps(NextImage(table, id, total), id, total);
  }

  /** Next undoes prev. */
  lemma NextAfterPrev(table: IndexTable, id: string, total: int)
    requires InRange(table, id, total)
    ensures CurrentIndex(NextImage(PrevImage(table, id, total), id, total), id) == CurrentIndex(table, id)
    ensures id in table ==> NextImage(PrevImage(table, id, total), id, total) == table
  {
    PrevSteps(table, id, total);
    PrevStaysInRange(table, id, total);
    NextSteps(PrevImage(table, id, total), id, total);
  }

  /** `total` presses of next bring a project back to the image it started on. */
  function NextTimes(table: IndexTable, id: string, total: int, n: nat): (r: IndexTable)
    requires total > 0
    ensures r.Keys == if n == 0 then table.Keys else table.Keys + {id}
    ensures forall k :: k in table && k != id ==> r[k] == table[k]
  {
    if n == 0 then table else NextImage(NextTimes(table, id, total, n - 1), id, total)
  }

  lemma {:induction false} NextTimesIndex(table: IndexTable, id: string, total: int, n: nat)
    requires InRange(table, id, total)
    ensures CurrentIndex(NextTimes(table, id, total, n), id) == (CurrentIndex(table, id) + n) % total
  {
    var c := CurrentIndex(table, id);
    if n == 0 {
      ModUnique(c, total, 0, c);
    } else {
      NextTimesIndex(table, id, total, n - 1);
      var before := NextTimes(table, id, total, n - 1);
      var b := (c + n - 1) % total;
      assert InRange(before, id, total);
      NextSteps(before, id, total);
      ModSucc(c + n - 1, total);
    }
  }

  /** Stepping a residue by one. */
  lemma ModSucc(a: nat, m: int)
    requires m > 0
    ensures (a + 1) % m == if a % m == m - 1 then 0 else a % m + 1
  {
    var q, r := a / m, a % m;
    DivMod(a, m);
    if r == m - 1 {
      ModUnique(a + 1, m, q + 1, 0);
    } else {
      ModUnique(a + 1, m, q, r + 1);
    }
  }

  lemma FullCycle(table: IndexTable, id: string, total: int)
    requires InRange(table, id, total)
    ensures CurrentIndex(NextTimes(table, id, total, total), id) == CurrentIndex(table, id)
  {
    var c := CurrentIndex(table, id);
    NextTimesIndex(table, id, total, total);
    ModUnique(c + total, total, 1, c);
  }

  /**
   * The table invariant of the whole component: every stored index names an
   * image of its project (`totals` maps each project id to its image count).
   */
  predicate TableValid(table: IndexTable, totals: map<string, int>)
  {
    forall id :: id in table ==> id in totals && 0 <= table[id] < totals[id]
  }

  /** What a user can do to the carousel of project `id`. */
  datatype Click = Next(id: string) | Prev(id: string) | Dot(id: string, idx: int)

  /**
   * A click is possible only on a rendered control: arrows and dots exist
   * only when the project has more than one image, and dot `idx` only for
   * an image position.
   */
  predicate Clickable(c: Click, totals: map<string, int>)
  {
    && c.id in totals && ControlsShown(totals[c.id])
    && (c.Dot? ==> 0 <= c.idx < totals[c.id])
  }

  function Apply(table: IndexTable, c: Click, totals: map<string, int>): (r: IndexTable)
    requires Clickable(c, totals)
    ensures r.Keys == table.Keys + {c.id}
    ensures forall k :: k in table && k != c.id ==> r[k] == table[k]
    ensures c.Dot? ==> r[c.id] == c.idx
    ensures InRange(table, c.id, totals[c.id]) ==> InRange(r, c.id, totals[c.id])
  {
    match c
    case Next(id) => NextImage(table, id, totals[id])
    case Prev(id) => PrevImage(table, id, totals[id])
    case Dot(id, idx) => SelectImage(table, id, idx, totals[id])
  }

  /** Every click keeps the table valid, so every project shows a real image. */
  lemma ApplyKeepsValid(table: IndexTable, c: Click, totals: map<string, int>)
    requires TableValid(table, totals) && Clickable(c, totals)
    ensures TableValid(Apply(table, c, totals), totals)
  {
  }

  /** Under the invariant every project with images shows one of them. */
  lemma ValidShowsImage(table: IndexTable, totals: map<string, int>, id: string, images: seq<string>)
    requires TableValid(table, totals) && id in totals && totals[id] == |images| > 0
    ensures ShownImage(images, table, id).Some?
  {
  }
}
