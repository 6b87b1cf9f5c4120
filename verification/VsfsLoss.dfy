/** A run of soi6 in which removing one file lets a later cp overwrite another: the condition on rm
    in VsfsMap cannot be dropped. */
module VsfsLoss {

  import opened VsfsImage
  import opened VsfsMap
  import opened VsfsRuns

  /** Two blocks' worth of ones. */
  function LongFile(): seq<Byte> {
    seq(5000, _ => 1)
  }

  /** A cp whose place is known. */
  lemma CpAt(img: Image, name: string, source: seq<Byte>, stray: nat -> Byte, i: nat, j: nat)
    requires Sized(img) && NulFree(source)
    requires i < INODES && img.inodeBits[i] == 0 && forall k :: 0 <= k < i ==> img.inodeBits[k] != 0
    requires j + Blocks(|source|) <= BLOCKS
    requires forall k :: j <= k < j + Blocks(|source|) ==> img.dataBits[k] == 0
    requires forall k :: 0 <= k < j ==> img.dataBits[k] != 0
    requires forall k :: 0 <= k < INODES && img.inodeBits[k] != 0 ==> img.inodes[k].name != name
    ensures CpInRange(img, source, stray) && Addr(j) + |source| <= |img.data|
    ensures Cp(img, name, source, stray) == (Placed(img, i, j, name, source), Ok)
  {
    UpToNulWhole(source);
    BlocksCover(|source|);
    AddrMonotone(j + Blocks(|source|), BLOCKS);
    PlaceAt(img.dataBits, Blocks(|source|), stray, j);
    assert FindName(img, name, 0) == INODES;
  }

  lemma PlaceAt(bits: seq<Byte>, n: nat, stray: nat -> Byte, j: nat)
    requires n >= 1 && j + n <= |bits|
    requires forall k :: j <= k < j + n ==> bits[k] == 0
    requires forall k :: 0 <= k < j ==> bits[k] != 0
    ensures FirstFit(bits, stray, n, 0) == j
  {
    assert LooksFree(bits, stray, j, n);
    forall k: nat | k < j
      ensures !LooksFree(bits, stray, k, n)
    {
      assert Seen(bits, stray, k) != 0;
    }
  }

  lemma LongFileIsWhole()
    ensures NulFree(LongFile()) && |LongFile()| == 5000 && Blocks(|LongFile()|) == 2
  {
  }

  lemma FreshIsZero()
    ensures var img := Fresh();
      && Sized(img)
      && (forall k :: 0 <= k < INODES ==> img.inodeBits[k] == 0)
      && (forall k :: 0 <= k < BLOCKS ==> img.dataBits[k] == 0)
  {
  }

  /** mkfs; cp a. */
  lemma FirstFile(stray: nat -> Byte) returns (img: Image)
    ensures Steps(Fresh(), CopyIn("a", LongFile(), stray), img, Ok)
    ensures Sized(img)
      && (forall k :: 0 <= k < INODES ==> (img.inodeBits[k] != 0 <==> k == 0))
      && (forall k :: 0 <= k < BLOCKS ==> (img.dataBits[k] != 0 <==> k < 2))
      && img.inodes[0] == INode(DATA_OFFSET, 5000, "a")
  {
    hide Cp, CpInRange, Written, Fresh, LongFile, FirstFit, Blocks, UpToNul;
    LongFileIsWhole();
    FreshIsZero();
    CpAt(Fresh(), "a", LongFile(), stray, 0, 0);
    img := Cp(Fresh(), "a", LongFile(), stray).0;
  }

  /** ... ; cp b. */
  lemma SecondFile(img: Image, stray: nat -> Byte) returns (img': Image)
    requires Sized(img)
      && (forall k :: 0 <= k < INODES ==> (img.inodeBits[k] != 0 <==> k == 0))
      && (forall k :: 0 <= k < BLOCKS ==> (img.dataBits[k] != 0 <==> k < 2))
      && img.inodes[0] == INode(DATA_OFFSET, 5000, "a")
    ensures Steps(img, CopyIn("b", [1], stray), img', Ok)
    ensures Sized(img') && img'.inodeBits[0] != 0 && img'.inodeBits[1] != 0
      && (forall k :: 2 <= k < INODES ==> img'.inodeBits[k] == 0)
      && img'.inodes[0] == INode(DATA_OFFSET, 5000, "a")
      && img'.inodes[1] == INode(DATA_OFFSET + 2, 1, "b")
      && img'.dataBits[0] != 0
  {
    CpAt(img, "b", [1], stray, 1, 2);
    img' := Cp(img, "b", [1], stray).0;
    hide Cp, CpInRange, Written;
  }

  /** ... then rm b frees a's second block, and cp c overwrites it. */
  lemma RmCanLoseAnotherFile(stray: nat -> Byte) returns (images: seq<Image>, events: seq<Event>)
    ensures |images| == 3 && |events| == 2 && IsRun(images, events, [Ok, Ok])
    ensures Describes(map["a" := LongFile(), "b" := [1]], images[2])
    ensures var img' := Rm(images[2], "b").0;
      && CpInRange(img', [2], stray)
      && Cp(img', "c", [2], stray).1 == Ok
      && Lookup(Cp(img', "c", [2], stray).0, "a") != Some(LongFile())
  {
    hide Fresh, Steps, Describes, MeantBy, Rm, Cp, CpInRange, Lookup;
    var img1 := FirstFile(stray);
    var img := SecondFile(img1, stray);
    images, events := [Fresh(), img1, img], [CopyIn("a", LongFile(), stray), CopyIn("b", [1], stray)];
    RunsRefine(images, events, [Ok, Ok]);
    WhatIsMeant(stray);
    RmThenCp(img, stray);
  }

  lemma WhatIsMeant(stray: nat -> Byte)
    ensures MeantBy([CopyIn("a", LongFile(), stray), CopyIn("b", [1], stray)], [Ok, Ok])
         == map["a" := LongFile(), "b" := [1]]
  {
    var events: seq<Event> := [CopyIn("a", LongFile(), stray), CopyIn("b", [1], stray)];
    var codes := [Ok, Ok];
    assert events[..1] == [events[0]] && codes[..1] == [Ok];
    assert MeantBy(events[..1], codes[..1]) == Meant(map[], events[0], Ok);
    UpToNulWhole(LongFile());
    UpToNulWhole([1]);
  }

  lemma RmThenCp(img: Image, stray: nat -> Byte)
    requires Sized(img) && img.inodeBits[0] != 0 && img.inodeBits[1] != 0
    requires forall k :: 2 <= k < INODES ==> img.inodeBits[k] == 0
    requires img.inodes[0] == INode(DATA_OFFSET, 5000, "a") && img.inodes[1] == INode(DATA_OFFSET + 2, 1, "b")
    requires img.dataBits[0] != 0
    ensures var img' := Rm(img, "b").0;
      && CpInRange(img', [2], stray)
      && Cp(img', "c", [2], stray).1 == Ok
      && Lookup(Cp(img', "c", [2], stray).0, "a") != Some(LongFile())
  {
    assert FindName(img, "b", 0) == 1;
    var img' := Rm(img, "b").0;
    CpAt(img', "c", [2], stray, 1, 1);
    var img'' := Cp(img', "c", [2], stray).0;
    hide Cp, Rm;
    assert FindName(img'', "a", 0) == 0;
    assert Contents(img'', 0)[4096] == 2;
  }

  // ------------------------------------------- when a removal can be seen at all

  /** Block x holds a byte of file k: the last block of a file that fills its others does not. */
  predicate HoldsByte(img: Image, k: nat, x: int)
    requires Sized(img) && k < INODES
  {
    Start(img, k) <= x && Addr(x) < Addr(Start(img, k)) + img.inodes[k].size
  }

  /** Copying `source` in after the removal of `name` changes what file k reads as. */
  ghost predicate Damages(img: Image, name: string, source: seq<Byte>, stray: nat -> Byte, k: nat)
    requires Sized(img) && k < INODES
  {
    var img' := Rm(img, name).0;
    && CpInRange(img', source, stray)
    && Cp(img', name, source, stray).1 == Ok
    && Contents(Cp(img', name, source, stray).0, k) != Contents(img, k)
  }

  /** After an rm, some file of n blocks can be copied in that changes another file k if and only
      if the place found for n blocks holds a byte of k. */
  lemma DamageIff(img: Image, name: string, stray: nat -> Byte, k: nat, n: nat)
    requires Inv(img) && FindName(img, name, 0) < INODES && n >= 1
    requires k in img.copied && k < INODES && k != FindName(img, name, 0)
    requires FirstFit(Rm(img, name).0.dataBits, stray, n, 0) + n <= BLOCKS
    ensures (exists source :: Blocks(|UpToNul(source)|) == n && Damages(img, name, source, stray, k))
        <==> exists x :: FirstFit(Rm(img, name).0.dataBits, stray, n, 0) <= x
                         < FirstFit(Rm(img, name).0.dataBits, stray, n, 0) + n && HoldsByte(img, k, x)
  {
    var j := FirstFit(Rm(img, name).0.dataBits, stray, n, 0);
    if x :| j <= x < j + n && HoldsByte(img, k, x) {
      SomeFileDamages(img, name, stray, k, n, x);
    } else {
      forall source | Blocks(|UpToNul(source)|) == n
        ensures !Damages(img, name, source, stray, k)
      {
        NoFileDamages(img, name, source, stray, k);
      }
    }
  }

  /** A cp under a new name, with an inode free, puts its file at the first place that fits. */
  lemma CpGoes(img: Image, name: string, source: seq<Byte>, stray: nat -> Byte, free: nat)
    returns (after: Image, i: nat, j: nat)
    requires Sized(img) && free < INODES && img.inodeBits[free] == 0 && FindName(img, name, 0) == INODES
    requires var n := Blocks(|UpToNul(source)|); FirstFit(img.dataBits, stray, n, 0) + n <= BLOCKS
    ensures CpInRange(img, source, stray) && Cp(img, name, source, stray) == (after, Ok)
    ensures i < INODES && img.inodeBits[i] == 0
    ensures var c := UpToNul(source);
      && j == FirstFit(img.dataBits, stray, Blocks(|c|), 0)
      && Addr(j) + |c| <= |img.data|
      && Sized(after)
      && after.inodes == img.inodes[i := INode(DATA_OFFSET + j, |c|, name)]
      && after.data == Written(img.data, Addr(j), c)
  {
    i := FirstFree(img.inodeBits, 0);
    j := FirstFit(img.dataBits, stray, Blocks(|UpToNul(source)|), 0);
    BlocksCover(|UpToNul(source)|);
    after := Cp(img, name, source, stray).0;
  }

  /** The image after the removal of `name` and the copying of `source` under that name. */
  ghost predicate Leads(img: Image, name: string, source: seq<Byte>, stray: nat -> Byte, img': Image, after: Image)
    requires Sized(img)
  {
    && img' == Rm(img, name).0 && Sized(img')
    && CpInRange(img', source, stray) && Cp(img', name, source, stray) == (after, Ok)
  }

  /** The cp puts its file into an inode that was or became free. */
  lemma CpAfterRm(img: Image, name: string, source: seq<Byte>, stray: nat -> Byte)
    returns (img': Image, after: Image, i: nat, j: nat)
    requires Inv(img) && FindName(img, name, 0) < INODES
    requires FirstFit(Rm(img, name).0.dataBits, stray, Blocks(|UpToNul(source)|), 0) + Blocks(|UpToNul(source)|) <= BLOCKS
    ensures Leads(img, name, source, stray, img', after)
    ensures var c := UpToNul(source);
      && i < INODES && (i == FindName(img, name, 0) || img.inodeBits[i] == 0)
      && j == FirstFit(img'.dataBits, stray, Blocks(|c|), 0) && Addr(j) + |c| <= |img.data|
      && Sized(after)
      && after.inodes == img.inodes[i := INode(DATA_OFFSET + j, |c|, name)]
      && after.data == Written(img.data, Addr(j), c)
  {
    hide ExtentsOk, AllApart, NamesUnique, OthersEmpty, Cp, CpInRange, FirstFit, RmFrom, Written, UpToNul, Blocks, FindName;
    var f := FindName(img, name, 0);
    img' := Rm(img, name).0;
    RmFrees(img, name, f);
    hide Rm;
    NameGone(img', name);
    after, i, j := CpGoes(img', name, source, stray, f);
  }

  lemma NameGone(img: Image, name: string)
    requires Sized(img)
    requires forall k :: 0 <= k < INODES && img.inodeBits[k] != 0 ==> img.inodes[k].name != name
    ensures FindName(img, name, 0) == INODES
  {
  }

  /** The place [j, j + n) holds no byte of k: c written there changes none. */
  lemma NoByteChanges(img: Image, after: Image, k: nat, j: nat, c: seq<Byte>)
    requires Sized(img) && Sized(after) && k < INODES && ExtentOk(img, k) && after.inodes[k] == img.inodes[k]
    requires Addr(j) + |c| <= |img.data| && after.data == Written(img.data, Addr(j), c)
    requires forall x :: j <= x < j + Blocks(|c|) ==> !HoldsByte(img, k, x)
    ensures Contents(after, k) == Contents(img, k)
  {
    var b, size := Start(img, k), img.inodes[k].size;
    ContentsInExtent(img, k);
    ContentsInExtent(after, k);
    BlocksCover(|c|);
    hide Written, Contents, ExtentOk;
    assert !HoldsByte(img, k, if b <= j then j else b) || b >= j + Blocks(|c|);
    if size > 0 {
      if b >= j + Blocks(|c|) {
        AddrMonotone(j + Blocks(|c|), b);
      }
      WrittenElsewhere(img.data, Addr(j), c, Addr(b), Addr(b) + size);
    }
  }

  lemma NoFileDamages(img: Image, name: string, source: seq<Byte>, stray: nat -> Byte, k: nat)
    requires Inv(img) && FindName(img, name, 0) < INODES
    requires k in img.copied && k < INODES && k != FindName(img, name, 0)
    requires var n := Blocks(|UpToNul(source)|);
      var j := FirstFit(Rm(img, name).0.dataBits, stray, n, 0);
      j + n <= BLOCKS && forall x :: j <= x < j + n ==> !HoldsByte(img, k, x)
    ensures !Damages(img, name, source, stray, k)
  {
    hide Cp, CpInRange, Rm, Written, Contents, FirstFit, FindName, AllApart, NamesUnique, OthersEmpty, HoldsByte, UpToNul;
    var img', after, i, j := CpAfterRm(img, name, source, stray);
    NoByteChanges(img, after, k, j, UpToNul(source));
  }

  /** n blocks full of a byte that block x of file k does not begin with. */
  function Damaging(img: Image, k: nat, x: int, n: nat): (c: seq<Byte>)
    requires Sized(img) && k < INODES && n >= 1 && HoldsByte(img, k, x)
    requires 0 <= x && Addr(x) < |img.data|
    ensures |c| == Addr(n) - 1 && NulFree(c) && forall y :: 0 <= y < |c| ==> c[y] != img.data[Addr(x)]
  {
    seq(Addr(n) - 1, _ => if img.data[Addr(x)] == 1 then 2 else 1)
  }

  lemma FullBlocks(n: nat)
    requires n >= 1
    ensures Blocks(Addr(n) - 1) == n
  {
  }

  lemma SomeFileDamages(img: Image, name: string, stray: nat -> Byte, k: nat, n: nat, x: int)
    requires Inv(img) && FindName(img, name, 0) < INODES && n >= 1
    requires k in img.copied && k < INODES && k != FindName(img, name, 0)
    requires var j := FirstFit(Rm(img, name).0.dataBits, stray, n, 0);
      j + n <= BLOCKS && j <= x < j + n && HoldsByte(img, k, x)
    ensures 0 <= x && Addr(x) < |img.data|
    ensures var source := Damaging(img, k, x, n);
      Blocks(|UpToNul(source)|) == n && Damages(img, name, source, stray, k)
  {
    hide Cp, CpInRange, Rm, Contents, FirstFit, FindName, AllApart, NamesUnique, OthersEmpty, UpToNul, Written, Blocks;
    AddrMonotone(x + 1, BLOCKS);
    FullBlocks(n);
    var source := Damaging(img, k, x, n);
    UpToNulWhole(source);
    var img', after, i, j := CpAfterRm(img, name, source, stray);
    ByteChanges(img, after, k, j, x, source);
  }

  /** A different byte at the start of a block of file k changes its contents. */
  lemma ByteChanges(img: Image, after: Image, k: nat, j: nat, x: int, c: seq<Byte>)
    requires Sized(img) && Sized(after) && k < INODES && ExtentOk(img, k) && after.inodes[k] == img.inodes[k]
    requires HoldsByte(img, k, x) && 0 <= Addr(j) <= Addr(x) < Addr(j) + |c| <= |img.data|
    requires after.data == Written(img.data, Addr(j), c)
    requires c[Addr(x) - Addr(j)] != img.data[Addr(x)]
    ensures Contents(after, k) != Contents(img, k)
  {
    ContentsInExtent(img, k);
    ContentsInExtent(after, k);
    AddrMonotone(Start(img, k), x);
    hide ExtentOk, Contents;
    var y := Addr(x) - Addr(Start(img, k));
    assert Contents(img, k)[y] == img.data[Addr(x)];
    assert Contents(after, k)[y] == c[Addr(x) - Addr(j)];
  }
}
