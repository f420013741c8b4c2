// A grid cell: its terrain, per-species appeal, per-species population sets, per-kind
// group sets and the cached list of neighbouring cells; and the clipped 3x3 scan that
// enumerates the coordinates around a cell.
module Cells {
  import opened Constants

  type Pos = (int, int)
  type VegetebobId = nat
  type AnimalId = nat
  type GroupId = nat

  datatype CellType = Water | Ground

  /**
   * A cell of the grid. The population and group sets hold the identities of the
   * entities; surroundingCells caches the coordinates of the neighbouring cells and is
   * empty until first asked for.
   */
  datatype Cell = Cell(
    x: int, y: int, cellType: CellType,
    erbastAppeal: real, carvizAppeal: real,
    vegetebobs: set<VegetebobId>, erbasts: set<AnimalId>, carvizes: set<AnimalId>,
    herds: set<GroupId>, prides: set<GroupId>,
    surroundingCells: seq<Pos>)
  {
    function Population(kind: AnimalKind): set<AnimalId>
    {
      match kind
      case Erbast => erbasts
      case Carviz => carvizes
    }

    function WithPopulation(kind: AnimalKind, s: set<AnimalId>): Cell
    {
      match kind
      case Erbast => this.(erbasts := s)
      case Carviz => this.(carvizes := s)
    }

    function Appeal(kind: AnimalKind): real
    {
      match kind
      case Erbast => erbastAppeal
      case Carviz => carvizAppeal
    }

    function Groups(kind: GroupKind): set<GroupId>
    {
      match kind
      case Herd => herds
      case Pride => prides
    }

    function WithGroups(kind: GroupKind, s: set<GroupId>): (d: Cell)
      ensures d.Groups(kind) == s && forall k :: k != kind ==> d.Groups(k) == Groups(k)
      ensures d == this.(herds := d.herds, prides := d.prides)
    {
      match kind
      case Herd => this.(herds := s)
      case Pride => this.(prides := s)
    }
  }

  /** A new cell: zero appeal, no population, no groups, empty neighbour cache. */
  function NewCell(x: int, y: int, cellType: CellType): (c: Cell)
    ensures c.x == x && c.y == y && c.cellType == cellType
    ensures c.erbastAppeal == 0.0 && c.carvizAppeal == 0.0
    ensures c.vegetebobs == {} && c.Population(Erbast) == {} && c.Population(Carviz) == {}
    ensures c.Groups(Herd) == {} && c.Groups(Pride) == {} && c.surroundingCells == []
  {
    Cell(x, y, cellType, 0.0, 0.0, {}, {}, {}, {}, {}, [])
  }

  /** The k-th coordinate (0 <= k < 9) of the 3x3 block centred on (x, y), row-major. */
  function BlockPosition(x: int, y: int, k: int): (int, int)
  {
    (x - 1 + k / 3, y - 1 + k % 3)
  }

  /**
   * p is kept as a neighbour of (x, y): it lies in the 3x3 block around (x, y), is not
   * (x, y) itself, and both of its coordinates lie in [0, NUMCELLS_R) -- the column
   * is bounded by the row count as well.
   */
  predicate IsSurrounding(x: int, y: int, p: (int, int))
  {
    && x - 1 <= p.0 <= x + 1
    && y - 1 <= p.1 <= y + 1
    && 0 <= p.0 < NUMCELLS_R
    && 0 <= p.1 < NUMCELLS_R
    && p != (x, y)
  }

  /** Strict row-major (lexicographic) order on coordinates. */
  predicate RowMajorBefore(p: (int, int), q: (int, int))
  {
    p.0 < q.0 || (p.0 == q.0 && p.1 < q.1)
  }

  predicate RowMajorSorted(s: seq<(int, int)>)
  {
    forall i, j :: 0 <= i < j < |s| ==> RowMajorBefore(s[i], s[j])
  }

  /** The kept block positions from index k on, in scan order. */
  function ScanBlock(x: int, y: int, k: nat): seq<(int, int)>
    decreases 9 - k
  {
    if k >= 9 then []
    else
      var p := BlockPosition(x, y, k);
      (if IsSurrounding(x, y, p) then [p] else []) + ScanBlock(x, y, k + 1)
  }

  lemma {:induction false} ScanBlockMembers(x: int, y: int, k: nat, p: (int, int))
    ensures p in ScanBlock(x, y, k) <==>
            IsSurrounding(x, y, p) && exists j :: k <= j < 9 && p == BlockPosition(x, y, j)
    decreases 9 - k
  {
    if k < 9 {
      ScanBlockMembers(x, y, k + 1, p);
      if p == BlockPosition(x, y, k) && IsSurrounding(x, y, p) {
        assert p in ScanBlock(x, y, k);
      }
      if exists j :: k <= j < 9 && p == BlockPosition(x, y, j) {
        var j :| k <= j < 9 && p == BlockPosition(x, y, j);
        if j != k {
          assert k + 1 <= j < 9 && p == BlockPosition(x, y, j);
        }
      }
    }
  }

  lemma {:induction false} ScanBlockLength(x: int, y: int, k: nat)
    requires k <= 9
    ensures |ScanBlock(x, y, k)| <= if k <= 4 then 8 - k else 9 - k
    decreases 9 - k
  {
    if k < 9 {
      ScanBlockLength(x, y, k + 1);
      if k == 4 {
        assert !IsSurrounding(x, y, BlockPosition(x, y, 4));
      }
    }
  }

  lemma {:induction false} ScanBlockSorted(x: int, y: int, k: nat)
    ensures RowMajorSorted(ScanBlock(x, y, k))
    ensures forall q :: q in ScanBlock(x, y, k) ==> exists j :: k <= j < 9 && q == BlockPosition(x, y, j)
    decreases 9 - k
  {
    if k < 9 {
      ScanBlockSorted(x, y, k + 1);
      var p := BlockPosition(x, y, k);
      var rest := ScanBlock(x, y, k + 1);
      forall q | q in rest
        ensures RowMajorBefore(p, q)
      {
        var j :| k + 1 <= j < 9 && q == BlockPosition(x, y, j);
      }
    }
  }

  /** Every block coordinate is the BlockPosition of its row-major index. */
  lemma BlockIndex(x: int, y: int, p: (int, int))
    requires x - 1 <= p.0 <= x + 1 && y - 1 <= p.1 <= y + 1
    ensures p == BlockPosition(x, y, (p.0 - x + 1) * 3 + (p.1 - y + 1))
  {
  }

  /** The coordinates around (x, y), scanned row-major over the 3x3 block. */
  function SurroundingCoordinates(x: int, y: int): seq<Pos>
  {
    ScanBlock(x, y, 0)
  }

  /**
   * The surrounding coordinates of (x, y): at most 8 of them, exactly the coordinates of
   * the 3x3 block around it other than its own that lie in [0, NUMCELLS_R) on both axes
   * (the column too is bounded by the row count), in row-major order.
   */
  lemma SurroundingCoordinatesSpec(x: int, y: int)
    ensures |SurroundingCoordinates(x, y)| <= 8
    ensures forall p :: p in SurroundingCoordinates(x, y) <==> IsSurrounding(x, y, p)
    ensures RowMajorSorted(SurroundingCoordinates(x, y))
  {
    ScanBlockLength(x, y, 0);
    ScanBlockSorted(x, y, 0);
    forall p
      ensures p in SurroundingCoordinates(x, y) <==> IsSurrounding(x, y, p)
    {
      ScanBlockMembers(x, y, 0, p);
      if IsSurrounding(x, y, p) {
        BlockIndex(x, y, p);
      }
    }
  }

  /** Each surrounding coordinate, by position, lies around (x, y). */
  lemma SurroundingCoordinatesIndexed(x: int, y: int)
    ensures forall k :: 0 <= k < |SurroundingCoordinates(x, y)| ==> IsSurrounding(x, y, SurroundingCoordinates(x, y)[k])
  {
    var coords := SurroundingCoordinates(x, y);
    SurroundingCoordinatesSpec(x, y);
    assert forall k :: 0 <= k < |coords| ==> coords[k] in coords;
  }

  /** Two members of a set with at most one element are the same. */
  lemma SingletonMembers<T>(s: set<T>, a: T, b: T)
    requires |s| <= 1 && a in s && b in s
    ensures a == b
  {
    assert |s - {a}| == |s| - 1;
    assert s - {a} == {};
  }

  /** A set with at most one element has no two distinct members. */
  lemma AtMostOneMember<T>(s: set<T>)
    requires |s| <= 1
    ensures forall a, b :: a in s && b in s ==> a == b
  {
    forall a, b | a in s && b in s
      ensures a == b
    {
      SingletonMembers(s, a, b);
    }
  }
}
