/**
 * The page-size choice of tensorpipe/util/shm/segment.cc: shared-memory
 * segments use huge pages once they are large enough that little of the last
 * page would be wasted.
 */
module Segment {

  const MB: nat := 1024 * 1024
  const GB: nat := 1024 * MB

  type Uint64 = n: nat | n < 0x1_0000_0000_0000_0000

  /** The page types of util/shm/segment.h. */
  datatype PageType = Default | HugeTLB_2MB | HugeTLB_1GB

  /** Lower bound for 1 GiB pages: 15/16 of a page. */
  const k1GBThreshold: nat := (15 * GB) / 16
  /** Lower bound for 2 MiB pages: 3/4 of a page. */
  const k2MBThreshold: nat := ((2 * MB) * 3) / 4

  function GetDefaultPageType(size: Uint64): (pt: PageType)
    ensures pt == HugeTLB_1GB <==> size >= 1006632960
    ensures pt == HugeTLB_2MB <==> 1572864 <= size < 1006632960
    ensures pt == Default <==> size < 1572864
  {
    if size >= k1GBThreshold then HugeTLB_1GB
    else if size >= k2MBThreshold then HugeTLB_2MB
    else Default
  }

  /** Bytes of a page, with the x86 default of 4 KiB. */
  function PageBytes(pt: PageType): nat
  {
    match pt
    case Default => 4096
    case HugeTLB_2MB => 2 * MB
    case HugeTLB_1GB => GB
  }

  /** Bytes mapped but unused when `size` bytes are rounded up to whole pages. */
  function Waste(size: nat, pt: PageType): (w: nat)
    ensures w < PageBytes(pt)
  {
    var p := PageBytes(pt);
    (p - size % p) % p
  }

  /**
   * The choice keeps waste small: a segment that fits in one 1 GiB page wastes
   * at most 64 MiB, one that fits in one 2 MiB page at most 512 KiB.
   */
  lemma WasteBound(size: Uint64)
    requires 0 < size
    ensures GetDefaultPageType(size) == HugeTLB_1GB && size <= GB ==> Waste(size, HugeTLB_1GB) <= 64 * MB
    ensures GetDefaultPageType(size) == HugeTLB_2MB && size <= 2 * MB ==> Waste(size, HugeTLB_2MB) <= 512 * 1024
  {
    if GetDefaultPageType(size) == HugeTLB_1GB && size <= GB {
      assert size % GB == if size == GB then 0 else size;
    }
    if GetDefaultPageType(size) == HugeTLB_2MB && size <= 2 * MB {
      assert size % (2 * MB) == if size == 2 * MB then 0 else size;
    }
  }
}
