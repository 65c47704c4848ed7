/**
 The objects a format-v7 file is made of, and the points they carry.
 */
module Objects {
  import opened Options

  type Positive = n: int | 1 <= n witness 1
  /** The 64-bit pattern of a stored double. */
  type Bits = n: int | 0 <= n < 0x1_0000_0000_0000_0000

  datatype Point = Point(timestamp: int, bits: Bits)

  const BLOCK_SIZE: nat := 65536
  const SLOT_COUNT: nat := 4
  const SLOT_SIZE: nat := 4096
  const SLOT_BASE: nat := 4096
  /** Points in one full data page: (65536 - 128) / 16. */
  const RECORDS_MAX: nat := 4088

  /** `tag` stands for whatever else an index node or a manifest holds. */
  datatype Object =
    | Control
    | Page(size: Positive, series: nat, points: seq<Point>)
    | Node(size: Positive, tag: nat)
    | Manifest(size: Positive, tag: nat, generation: nat, pages: seq<Placed>)
    | Root(generation: nat, committed: nat, manifestOffset: nat, manifest: Object, previous: Option<Object>)

  datatype Placed = Placed(offset: nat, item: Object)

  function SizeOf(o: Object): Positive {
    match o
    case Control => BLOCK_SIZE
    case Root(_, _, _, _, _) => SLOT_SIZE
    case Page(size, _, _) => size
    case Node(size, _) => size
    case Manifest(size, _, _, _) => size
  }

  /** The points of one series named by a list of pages. */
  function Content(pages: seq<Placed>, series: nat): seq<Point> {
    if pages == [] then []
    else
      var last := pages[|pages| - 1].item;
      Content(pages[..|pages| - 1], series) +
      if last.Page? && last.series == series then last.points else []
  }

  function Cut<T>(image: seq<T>, size: nat): (r: seq<T>) {
    if size < |image| then image[..size] else image
  }

  predicate StrictlyIncreasing(points: seq<Point>) {
    forall i, j :: 0 <= i < j < |points| ==> points[i].timestamp < points[j].timestamp
  }
}
