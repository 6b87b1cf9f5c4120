/** The contiguous-extent file system of soi6 as a value: what mkfs, touch, cp, rm, cat and load
    do to the image, and how far it behaves as a map from names to contents. */
module VsfsImage {

  type Byte = b: int | 0 <= b < 256 witness 0

  const INODES: nat := 80
  const BLOCKS: nat := 56
  const DATA_OFFSET: nat := 8
  const OCCUPIED: Byte := 255

  /** Bytes before data block b (counted from the first data block). */
  function Addr(b: int): int {
    b * 4096
  }

  /** The access rights and times are left out.  startingBlock counts from the start of the
      image. */
  datatype INode = INode(startingBlock: int, size: nat, name: string)

  /** The two bitmaps, the inode table and the data blocks.  `copied` is bookkeeping: the inodes
      of files made by cp, which own blocks; those made by touch own none. */
  datatype Image = Image(inodeBits: seq<Byte>, dataBits: seq<Byte>, inodes: seq<INode>, data: seq<Byte>,
                         copied: set<nat>)

  datatype Code = Ok | FileAlreadyExists | NoAvailableINodes | FileNotExisting

  datatype Option<T> = None | Some(value: T)

  predicate Sized(img: Image) {
    |img.inodeBits| == |img.inodes| == INODES && |img.dataBits| == BLOCKS && |img.data| == Addr(BLOCKS)
  }

  /** mkfs zeroes the image. */
  function Fresh(): Image {
    Image(seq(INODES, _ => 0), seq(BLOCKS, _ => 0), seq(INODES, _ => INode(0, 0, "")), seq(Addr(BLOCKS), _ => 0), {})
  }

  // ---------------------------------------------------------------- searches

  /** The first inode from `from` on that is occupied under this name; INODES if there is none. */
  function FindName(img: Image, name: string, from: nat): (i: nat)
    requires Sized(img) && from <= INODES
    ensures from <= i <= INODES
    ensures i < INODES ==> img.inodeBits[i] != 0 && img.inodes[i].name == name
    ensures forall k :: from <= k < i ==> !(img.inodeBits[k] != 0 && img.inodes[k].name == name)
    decreases INODES - from
  {
    if from == INODES || (img.inodeBits[from] != 0 && img.inodes[from].name == name) then from
    else FindName(img, name, from + 1)
  }

  function FirstFree(bits: seq<Byte>, from: nat): (i: nat)
    requires from <= |bits|
    ensures from <= i <= |bits|
    ensures i < |bits| ==> bits[i] == 0
    ensures forall k :: from <= k < i ==> bits[k] != 0
    decreases |bits| - from
  {
    if from == |bits| || bits[from] == 0 then from else FirstFree(bits, from + 1)
  }

  function Blocks(size: nat): (n: nat)
    ensures n >= 1
  {
    1 + size / 4096
  }

  /** The bitmap as cp's search sees it: past its end it reads whatever lies in memory there. */
  function Seen(bits: seq<Byte>, stray: nat -> Byte, x: nat): Byte {
    if x < |bits| then bits[x] else stray(x)
  }

  /** The n blocks from j on look free. */
  ghost predicate LooksFree(bits: seq<Byte>, stray: nat -> Byte, j: nat, n: nat) {
    forall k :: j <= k < j + n ==> Seen(bits, stray, k) == 0
  }

  /** The first start of n blocks that look free; |bits| if there is none. */
  ghost function FirstFit(bits: seq<Byte>, stray: nat -> Byte, n: nat, from: nat): (j: nat)
    requires from <= |bits| && n >= 1
    ensures from <= j <= |bits|
    ensures j < |bits| ==> LooksFree(bits, stray, j, n)
    ensures forall k :: from <= k < j ==> !LooksFree(bits, stray, k, n)
    decreases |bits| - from
  {
    if from == |bits| || LooksFree(bits, stray, from, n) then from
    else FirstFit(bits, stray, n, from + 1)
  }

  /** Inode i holds an extent [Start, Start + n) of the data blocks. */
  function Start(img: Image, i: nat): int
    requires Sized(img) && i < INODES
  {
    img.inodes[i].startingBlock - DATA_OFFSET
  }

  // -------------------------------------------------------------- operations

  predicate NulFree(c: seq<Byte>) {
    0 !in c
  }

  /** What strlen() sees of a buffer: its longest prefix without a NUL. */
  function UpToNul(c: seq<Byte>): (r: seq<Byte>)
    ensures r <= c && NulFree(r)
    ensures |r| < |c| ==> c[|r|] == 0
  {
    if c == [] || c[0] == 0 then [] else [c[0]] + UpToNul(c[1..])
  }

  function Marked(bits: seq<Byte>, j: int, n: nat, b: Byte): (r: seq<Byte>)
    ensures |r| == |bits|
    ensures forall k :: 0 <= k < |bits| ==> r[k] == if j <= k < j + n then b else bits[k]
  {
    seq(|bits|, k requires 0 <= k < |bits| => if j <= k < j + n then b else bits[k])
  }

  function Written(data: seq<Byte>, at: nat, c: seq<Byte>): (r: seq<Byte>)
    requires at + |c| <= |data|
    ensures |r| == |data|
  {
    data[..at] + c + data[at + |c|..]
  }

  /** The file c in inode i, from data block j on. */
  function Placed(img: Image, i: nat, j: nat, name: string, c: seq<Byte>): (img': Image)
    requires Sized(img) && i < INODES && Addr(j) + |c| <= |img.data|
    ensures Sized(img')
  {
    Image(img.inodeBits[i := OCCUPIED],
          Marked(img.dataBits, j, Blocks(|c|), OCCUPIED),
          img.inodes[i := INode(DATA_OFFSET + j, |c|, name)],
          Written(img.data, Addr(j), c),
          img.copied + {i})
  }

  /** cp's choice of a place for n blocks stays inside the image. */
  ghost predicate PlaceInRange(bits: seq<Byte>, n: nat, stray: nat -> Byte)
    requires n >= 1
  {
    var j := FirstFit(bits, stray, n, 0);
    j == |bits| || j + n <= |bits|
  }

  /** cp never gets as far as writing outside the image. */
  ghost predicate CpInRange(img: Image, source: seq<Byte>, stray: nat -> Byte)
    requires Sized(img)
  {
    PlaceInRange(img.dataBits, Blocks(|UpToNul(source)|), stray)
  }

  /** cp copies the source up to its first NUL, to the first place that looks free. */
  ghost function Cp(img: Image, name: string, source: seq<Byte>, stray: nat -> Byte): (Image, Code)
    requires Sized(img) && CpInRange(img, source, stray)
  {
    if FindName(img, name, 0) < INODES then (img, FileAlreadyExists)
    else
      var c := UpToNul(source);
      var i, n := FirstFree(img.inodeBits, 0), Blocks(|c|);
      var j := FirstFit(img.dataBits, stray, n, 0);
      if i == INODES || j == BLOCKS then (img, NoAvailableINodes)
      else
        (Placed(img, i, j, name, c), Ok)
  }

  /** touch leaves the starting block as some earlier file left it. */
  function Touch(img: Image, name: string): (Image, Code)
    requires Sized(img)
  {
    if FindName(img, name, 0) < INODES then (img, FileAlreadyExists)
    else
      var i := FirstFree(img.inodeBits, 0);
      if i == INODES then (img, NoAvailableINodes)
      else
        (img.(inodeBits := img.inodeBits[i := OCCUPIED],
              inodes := img.inodes[i := img.inodes[i].(size := 0, name := name)]),
         Ok)
  }

  /** rm, clearing as many blocks as the file of the size found has, from `start` on. */
  function RmFrom(img: Image, name: string, start: int): (Image, Code)
    requires Sized(img)
  {
    var i := FindName(img, name, 0);
    if i == INODES then (img, FileNotExisting)
    else
      (img.(inodeBits := img.inodeBits[i := 0],
            dataBits := Marked(img.dataBits, start, Blocks(img.inodes[i].size), 0),
            copied := img.copied - {i}),
       Ok)
  }

  /** rm computes where the extent starts, and then clears from the inode's index instead. */
  function Rm(img: Image, name: string): (Image, Code)
    requires Sized(img)
  {
    RmFrom(img, name, FindName(img, name, 0))
  }

  /** rm clearing from the start that it computes. */
  function IntendedRm(img: Image, name: string): (Image, Code)
    requires Sized(img)
  {
    RmFrom(img, name, RmStart(img, FindName(img, name, 0)))
  }

  function RmStart(img: Image, i: nat): int
    requires Sized(img)
  {
    if i < INODES then Start(img, i) else 0
  }

  /** The bytes of the file in inode i: those at its address in the image. */
  function Contents(img: Image, i: nat): seq<Byte>
    requires Sized(img) && i < INODES
  {
    var at, size := Addr(img.inodes[i].startingBlock - DATA_OFFSET), img.inodes[i].size;
    if 0 <= at && at + size <= |img.data| then img.data[at..at + size] else []
  }

  /** The contents of the file found under a name. */
  function Lookup(img: Image, name: string): Option<seq<Byte>>
    requires Sized(img)
  {
    var i := FindName(img, name, 0);
    if i == INODES then None else Some(Contents(img, i))
  }

  /** What cat prints and load writes out: the contents up to the first NUL. */
  function Shown(img: Image, name: string): Option<seq<Byte>>
    requires Sized(img)
  {
    match Lookup(img, name)
    case None => None
    case Some(c) => Some(UpToNul(c))
  }

  // --------------------------------------------------------------- invariant

  /** A file made by cp: its extent is inside the image and marked, its contents free of NULs. */
  ghost predicate ExtentOk(img: Image, i: nat)
    requires Sized(img) && i < INODES
  {
    var b, n := Start(img, i), Blocks(img.inodes[i].size);
    && 0 <= b && b + n <= BLOCKS
    && (forall k :: b <= k < b + n ==> img.dataBits[k] != 0)
    && NulFree(Contents(img, i))
  }

  ghost predicate Apart(img: Image, i: nat, k: nat)
    requires Sized(img) && i < INODES && k < INODES
  {
    || Start(img, i) + Blocks(img.inodes[i].size) <= Start(img, k)
    || Start(img, k) + Blocks(img.inodes[k].size) <= Start(img, i)
  }

  ghost predicate ExtentsOk(img: Image)
    requires Sized(img)
  {
    forall i: nat :: i in img.copied ==> i < INODES && img.inodeBits[i] != 0 && ExtentOk(img, i)
  }

  /** No block belongs to two copied files. */
  ghost predicate AllApart(img: Image)
    requires Sized(img)
  {
    forall i: nat, k: nat :: i in img.copied && k in img.copied && i < INODES && k < INODES && i != k
      ==> Apart(img, i, k)
  }

  ghost predicate NamesUnique(img: Image)
    requires Sized(img)
  {
    forall i, k :: 0 <= i < k < INODES && img.inodeBits[i] != 0 && img.inodeBits[k] != 0 ==>
      img.inodes[i].name != img.inodes[k].name
  }

  /** Files made by touch are empty. */
  ghost predicate OthersEmpty(img: Image)
    requires Sized(img)
  {
    forall i :: 0 <= i < INODES && img.inodeBits[i] != 0 && i !in img.copied ==> img.inodes[i].size == 0
  }

  ghost predicate Inv(img: Image) {
    Sized(img) && ExtentsOk(img) && AllApart(img) && NamesUnique(img) && OthersEmpty(img)
  }
}
