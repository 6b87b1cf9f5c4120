/** How far the file system of soi6 behaves as a map from names to contents, and exactly when its
    rm and cp break that. */
module VsfsMap {

  import opened VsfsImage

  // --------------------------------------------------------------- addresses

  lemma BlocksCover(size: nat)
    ensures size < Addr(Blocks(size)) <= size + 4096
  {
  }

  lemma AddrMonotone(a: int, b: int)
    requires a <= b
    ensures Addr(a) <= Addr(b)
  {
  }

  /** The contents of a copied file lie inside its blocks. */
  lemma ContentsInExtent(img: Image, i: nat)
    requires Sized(img) && i < INODES
    requires 0 <= Start(img, i) && Start(img, i) + Blocks(img.inodes[i].size) <= BLOCKS
    ensures Contents(img, i) == img.data[Addr(Start(img, i))..Addr(Start(img, i)) + img.inodes[i].size]
    ensures Addr(Start(img, i)) + img.inodes[i].size
         <= Addr(Start(img, i) + Blocks(img.inodes[i].size)) <= |img.data|
  {
  }

  lemma MarkedApartFromFree(bits: seq<Byte>, b: nat, m: nat, j: int, n: nat)
    requires b + m <= |bits|
    requires forall x :: b <= x < b + m ==> bits[x] != 0
    requires forall x :: j <= x < j + n && 0 <= x < |bits| ==> bits[x] == 0
    ensures b + m <= j || j + n <= b || m == 0 || n == 0
  {
    var x := if b <= j then j else b;
    ghost var bit := if x < |bits| then bits[x] else 0;
  }

  /** A run of free blocks is apart from every extent. */
  lemma FreeRunIsApart(img: Image, k: nat, j: nat, n: nat)
    requires Sized(img) && k < INODES && ExtentOk(img, k) && n >= 1 && j + n <= BLOCKS
    requires forall x :: j <= x < j + n ==> img.dataBits[x] == 0
    ensures Start(img, k) + Blocks(img.inodes[k].size) <= j || j + n <= Start(img, k)
  {
    MarkedApartFromFree(img.dataBits, Start(img, k), Blocks(img.inodes[k].size), j, n);
  }

  lemma WrittenAt(data: seq<Byte>, at: nat, c: seq<Byte>)
    requires at + |c| <= |data|
    ensures Written(data, at, c)[at..at + |c|] == c
  {
  }

  lemma WrittenElsewhere(data: seq<Byte>, at: nat, c: seq<Byte>, lo: nat, hi: nat)
    requires at + |c| <= |data| && lo <= hi <= |data| && (hi <= at || at + |c| <= lo)
    ensures Written(data, at, c)[lo..hi] == data[lo..hi]
  {
  }

  // ------------------------------------------------------------ the invariant

  lemma FreshInv()
    ensures Inv(Fresh())
  {
  }

  /** What a successful cp does: inode i, free before, gets n blocks from j on, free before. */
  lemma CpPlaces(img: Image, name: string, source: seq<Byte>, stray: nat -> Byte) returns (i: nat, j: nat)
    requires Inv(img) && CpInRange(img, source, stray) && Cp(img, name, source, stray).1 == Ok
    ensures i < INODES && img.inodeBits[i] == 0 && i !in img.copied
    ensures var n := Blocks(|UpToNul(source)|);
      && j + n <= BLOCKS
      && (forall x :: j <= x < j + n ==> img.dataBits[x] == 0)
    ensures var c, img' := UpToNul(source), Cp(img, name, source, stray).0;
      && Addr(j) + |c| <= |img.data|
      && img' == Placed(img, i, j, name, c)
  {
    var c := UpToNul(source);
    i := FirstFree(img.inodeBits, 0);
    j := FirstFit(img.dataBits, stray, Blocks(|c|), 0);
    BlocksCover(|c|);
    forall x | j <= x < j + Blocks(|c|)
      ensures img.dataBits[x] == 0
    {
      assert Seen(img.dataBits, stray, x) == 0;
    }
  }

  /** Writing into a run of blocks apart from an extent changes no byte of the file there. */
  lemma BytesKept(img: Image, img': Image, k: nat, j: nat, c: seq<Byte>)
    requires Sized(img) && Sized(img') && k < INODES && ExtentOk(img, k) && img'.inodes[k] == img.inodes[k]
    requires j + Blocks(|c|) <= BLOCKS && Addr(j) + |c| <= |img.data| && img'.data == Written(img.data, Addr(j), c)
    requires Start(img, k) + Blocks(img.inodes[k].size) <= j || j + Blocks(|c|) <= Start(img, k)
    ensures Contents(img', k) == Contents(img, k)
  {
    ContentsInExtent(img, k);
    ContentsInExtent(img', k);
    BlocksCover(|c|);
    hide ExtentOk, Contents, Written;
    var at := Addr(Start(img, k));
    if j + Blocks(|c|) <= Start(img, k) {
      AddrMonotone(j + Blocks(|c|), Start(img, k));
    } else {
      AddrMonotone(Start(img, k) + Blocks(img.inodes[k].size), j);
    }
    WrittenElsewhere(img.data, Addr(j), c, at, at + img.inodes[k].size);
  }

  /** A copied file other than the new one keeps its extent and its bytes. */
  lemma CpSparesOthers(img: Image, name: string, source: seq<Byte>, stray: nat -> Byte, k: nat)
    requires Inv(img) && CpInRange(img, source, stray) && Cp(img, name, source, stray).1 == Ok
    requires k in img.copied
    ensures var img' := Cp(img, name, source, stray).0;
      && Sized(img') && k in img'.copied && k < INODES
      && img'.inodes[k] == img.inodes[k]
      && Contents(img', k) == Contents(img, k)
      && ExtentOk(img', k)
  {
    hide AllApart, NamesUnique, OthersEmpty;
    var i, j := CpPlaces(img, name, source, stray);
    hide Cp, CpInRange, Contents, Written;
    assert ExtentOk(img, k);
    var c, img' := UpToNul(source), Cp(img, name, source, stray).0;
    FreeRunIsApart(img, k, j, Blocks(|c|));
    BytesKept(img, img', k, j, c);
  }

  /** The new file holds the source up to its first NUL, in an extent apart from the others. */
  lemma CpMakesFile(img: Image, name: string, source: seq<Byte>, stray: nat -> Byte) returns (i: nat)
    requires Inv(img) && CpInRange(img, source, stray) && Cp(img, name, source, stray).1 == Ok
    ensures i < INODES && img.inodeBits[i] == 0 && i !in img.copied
    ensures var img' := Cp(img, name, source, stray).0;
      && Sized(img')
      && img'.copied == img.copied + {i}
      && img'.inodeBits == img.inodeBits[i := OCCUPIED]
      && img'.inodes == img.inodes[i := img'.inodes[i]] && img'.inodes[i].name == name
      && Contents(img', i) == UpToNul(source)
      && ExtentOk(img', i)
      && (forall k: nat :: k in img.copied ==> k < INODES && Apart(img', i, k))
  {
    var j;
    i, j := CpPlaces(img, name, source, stray);
    var c, img' := UpToNul(source), Cp(img, name, source, stray).0;
    ContentsInExtent(img', i);
    WrittenAt(img.data, Addr(j), c);
    forall k: nat | k in img.copied
      ensures k < INODES && Apart(img', i, k)
    {
      FreeRunIsApart(img, k, j, Blocks(|c|));
    }
  }

  lemma CpKeepsExtents(img: Image, name: string, source: seq<Byte>, stray: nat -> Byte)
    requires Inv(img) && CpInRange(img, source, stray) && Cp(img, name, source, stray).1 == Ok
    ensures var img' := Cp(img, name, source, stray).0;
      Sized(img') && ExtentsOk(img')
  {
    var img' := Cp(img, name, source, stray).0;
    var i := CpMakesFile(img, name, source, stray);
    hide Cp, ExtentOk, FindName, CpInRange, AllApart, NamesUnique, OthersEmpty;
    forall k: nat | k in img'.copied
      ensures k < INODES && img'.inodeBits[k] != 0 && ExtentOk(img', k)
    {
      if k != i {
        CpSparesOthers(img, name, source, stray, k);
      }
    }
  }

  lemma CpKeepsApart(img: Image, name: string, source: seq<Byte>, stray: nat -> Byte)
    requires Inv(img) && CpInRange(img, source, stray) && Cp(img, name, source, stray).1 == Ok
    ensures var img' := Cp(img, name, source, stray).0;
      Sized(img') && AllApart(img')
  {
    var img' := Cp(img, name, source, stray).0;
    var i := CpMakesFile(img, name, source, stray);
    hide Cp, ExtentOk, FindName, CpInRange, ExtentsOk, NamesUnique, OthersEmpty;
    forall k: nat, l: nat | k in img'.copied && l in img'.copied && k < INODES && l < INODES && k != l
      ensures Apart(img', k, l)
    {
      assert k != i && l != i ==> Apart(img, k, l);
    }
  }

  lemma CpKeepsInv(img: Image, name: string, source: seq<Byte>, stray: nat -> Byte)
    requires Inv(img) && CpInRange(img, source, stray)
    ensures Inv(Cp(img, name, source, stray).0)
  {
    var (img', code) := Cp(img, name, source, stray);
    if code == Ok {
      var i := CpMakesFile(img, name, source, stray);
      CpKeepsExtents(img, name, source, stray);
      CpKeepsApart(img, name, source, stray);
      assert FindName(img, name, 0) == INODES;
      hide Cp, CpInRange, ExtentsOk, AllApart;
    }
  }

  lemma TouchKeepsExtents(img: Image, name: string)
    requires Inv(img)
    ensures var img' := Touch(img, name).0;
      Sized(img') && ExtentsOk(img')
  {
    hide AllApart, NamesUnique, OthersEmpty, FindName;
    var img' := Touch(img, name).0;
    forall i: nat | i in img'.copied
      ensures i < INODES && img'.inodeBits[i] != 0 && ExtentOk(img', i)
    {
      assert ExtentOk(img, i) && Contents(img', i) == Contents(img, i);
    }
  }

  lemma TouchKeepsApart(img: Image, name: string)
    requires Inv(img)
    ensures var img' := Touch(img, name).0;
      Sized(img') && AllApart(img')
  {
    hide ExtentOk, NamesUnique, OthersEmpty, FindName;
    var img' := Touch(img, name).0;
    forall i: nat, k: nat | i in img'.copied && k in img'.copied && i < INODES && k < INODES && i != k
      ensures Apart(img', i, k)
    {
      assert Apart(img, i, k);
    }
  }

  lemma TouchKeepsNames(img: Image, name: string)
    requires Inv(img)
    ensures var img' := Touch(img, name).0;
      Sized(img') && NamesUnique(img') && OthersEmpty(img')
  {
    hide ExtentsOk, AllApart;
    if Touch(img, name).1 == Ok {
      var i := FirstFree(img.inodeBits, 0);
      assert forall k :: 0 <= k < INODES && img.inodeBits[k] != 0 ==> img.inodes[k].name != name;
      hide FindName, FirstFree;
    }
  }

  lemma TouchKeepsInv(img: Image, name: string)
    requires Inv(img)
    ensures Inv(Touch(img, name).0)
  {
    hide ExtentsOk, AllApart, NamesUnique, OthersEmpty, Touch;
    TouchKeepsExtents(img, name);
    TouchKeepsApart(img, name);
    TouchKeepsNames(img, name);
  }

  // ------------------------------------------------------------------------ rm

  /** n blocks from start on are not those of copied file k. */
  predicate Spares(img: Image, start: int, n: nat, k: nat)
    requires Sized(img) && k < INODES
  {
    Start(img, k) + Blocks(img.inodes[k].size) <= start || start + n <= Start(img, k)
  }

  /** Removing inode i and clearing its number of blocks from start on hits no other copied file. */
  ghost predicate Harmless(img: Image, i: nat, start: int)
    requires Sized(img) && i < INODES
  {
    forall k: nat :: k in img.copied && k != i && k < INODES ==> Spares(img, start, Blocks(img.inodes[i].size), k)
  }

  ghost predicate RmHarmless(img: Image, i: nat)
    requires Sized(img) && i < INODES
  {
    Harmless(img, i, i)
  }

  /** It leaves every other file its inode, bytes and place, and its marks exactly if it spares
      it. */
  lemma RmSparesIff(img: Image, name: string, start: int, k: nat)
    requires Inv(img) && FindName(img, name, 0) < INODES
    requires k in img.copied && k != FindName(img, name, 0)
    ensures k < INODES
    ensures var i, img' := FindName(img, name, 0), RmFrom(img, name, start).0;
      && img'.inodes[k] == img.inodes[k]
      && Contents(img', k) == Contents(img, k)
      && (ExtentOk(img', k) <==> Spares(img, start, Blocks(img.inodes[i].size), k))
  {
    hide AllApart, NamesUnique, OthersEmpty;
    var i, img' := FindName(img, name, 0), RmFrom(img, name, start).0;
    assert ExtentOk(img, k) && Contents(img', k) == Contents(img, k);
    hide Contents;
    if ExtentOk(img', k) {
      MarkedApartFromFree(img'.dataBits, Start(img, k), Blocks(img.inodes[k].size), start, Blocks(img.inodes[i].size));
    }
  }

  /** Wherever it clears, the invariant is kept exactly when that is harmless. */
  lemma RmFromKeepsInvIff(img: Image, name: string, start: int)
    requires Inv(img) && FindName(img, name, 0) < INODES
    ensures Inv(RmFrom(img, name, start).0) <==> Harmless(img, FindName(img, name, 0), start)
  {
    hide ExtentOk, Spares;
    var i, img' := FindName(img, name, 0), RmFrom(img, name, start).0;
    forall k: nat | k in img.copied && k != i
      ensures k < INODES && (ExtentOk(img', k) <==> Spares(img, start, Blocks(img.inodes[i].size), k))
    {
      RmSparesIff(img, name, start, k);
    }
    forall k: nat, l: nat | k in img'.copied && l in img'.copied && k < INODES && l < INODES && k != l
      ensures Apart(img', k, l)
    {
      assert Apart(img, k, l);
    }
  }

  /** rm as written keeps the invariant exactly when it is harmless. */
  lemma RmKeepsInvIff(img: Image, name: string)
    requires Inv(img) && FindName(img, name, 0) < INODES
    ensures Inv(Rm(img, name).0) <==> RmHarmless(img, FindName(img, name, 0))
  {
    RmFromKeepsInvIff(img, name, FindName(img, name, 0));
  }

  /** rm as intended keeps it for every file made by cp. */
  lemma IntendedRmKeepsInv(img: Image, name: string)
    requires Inv(img) && FindName(img, name, 0) in img.copied
    ensures Inv(IntendedRm(img, name).0)
  {
    var i := FindName(img, name, 0);
    RmFromKeepsInvIff(img, name, Start(img, i));
    IntendedIsHarmless(img, i);
  }

  lemma IntendedIsHarmless(img: Image, i: nat)
    requires Inv(img) && i in img.copied
    ensures i < INODES && Harmless(img, i, Start(img, i))
  {
    hide NamesUnique, OthersEmpty;
    assert ExtentOk(img, i);
    forall k: nat | k in img.copied && k != i && k < INODES
      ensures Spares(img, Start(img, i), Blocks(img.inodes[i].size), k)
    {
      assert Apart(img, i, k);
    }
  }

  /** Removing a copied file releases exactly its own blocks if and only if its extent starts at
      the data block numbered as its inode. */
  lemma RmReleasesExtentIff(img: Image, name: string)
    requires Inv(img) && FindName(img, name, 0) in img.copied
    ensures var i := FindName(img, name, 0);
      Rm(img, name).0.dataBits == Marked(img.dataBits, Start(img, i), Blocks(img.inodes[i].size), 0)
      <==> Start(img, i) == i
  {
    var i := FindName(img, name, 0);
    var b, n := Start(img, i), Blocks(img.inodes[i].size);
    var bits' := Rm(img, name).0.dataBits;
    assert ExtentOk(img, i);
    if bits' == Marked(img.dataBits, b, n, 0) {
      assert bits'[b] == 0 && img.dataBits[b] != 0;
      assert bits'[b + n - 1] == 0 && img.dataBits[b + n - 1] != 0;
    }
  }

  /** ... and then it is harmless. */
  lemma ExactRmIsHarmless(img: Image, i: nat)
    requires Inv(img) && i in img.copied && i < INODES && Start(img, i) == i
    ensures RmHarmless(img, i)
  {
    IntendedIsHarmless(img, i);
  }

  // ------------------------------------------------------------------------ cp

  /** n free blocks in a row, inside the bitmap. */
  ghost predicate HasRoom(bits: seq<Byte>, n: nat) {
    exists j: nat :: FitsAt(bits, j, n)
  }

  ghost predicate FitsAt(bits: seq<Byte>, j: nat, n: nat) {
    j + n <= |bits| && forall x :: j <= x < j + n ==> bits[x] == 0
  }

  /** cp chooses inside the image whatever lies behind the bitmap if and only if there is room, or
      the last block is taken and so no run can start that would reach behind it. */
  lemma PlaceInRangeIff(bits: seq<Byte>, n: nat)
    requires n >= 1 && |bits| >= 1
    ensures (forall stray: nat -> Byte :: PlaceInRange(bits, n, stray))
        <==> (HasRoom(bits, n) || bits[|bits| - 1] != 0)
  {
    if HasRoom(bits, n) || bits[|bits| - 1] != 0 {
      forall stray: nat -> Byte
        ensures PlaceInRange(bits, n, stray)
      {
        RoomIsFound(bits, n, stray);
      }
    } else {
      OverrunPossible(bits, n);
    }
  }

  lemma RoomIsFound(bits: seq<Byte>, n: nat, stray: nat -> Byte)
    requires n >= 1 && |bits| >= 1 && (HasRoom(bits, n) || bits[|bits| - 1] != 0)
    ensures PlaceInRange(bits, n, stray)
  {
    var j, last := FirstFit(bits, stray, n, 0), |bits| - 1;
    if HasRoom(bits, n) {
      var k: nat :| FitsAt(bits, k, n);
      assert LooksFree(bits, stray, k, n);
    } else {
      assert j <= last < j + n ==> Seen(bits, stray, last) != 0;
    }
  }

  lemma OverrunPossible(bits: seq<Byte>, n: nat)
    requires n >= 1 && |bits| >= 1 && !HasRoom(bits, n) && bits[|bits| - 1] == 0
    ensures exists stray: nat -> Byte :: !PlaceInRange(bits, n, stray)
  {
    var stray: nat -> Byte := _ => 0;
    var j := FirstFit(bits, stray, n, 0);
    assert LooksFree(bits, stray, |bits| - 1, n);
    if j + n <= |bits| {
      forall x | j <= x < j + n
        ensures bits[x] == 0
      {
        assert Seen(bits, stray, x) == 0;
      }
      assert FitsAt(bits, j, n);
    }
    assert !PlaceInRange(bits, n, stray);
  }

  /** cp succeeds exactly when the name is new, an inode is free, and there is room. */
  lemma CpOutcome(img: Image, name: string, source: seq<Byte>, stray: nat -> Byte)
    requires Inv(img) && CpInRange(img, source, stray)
    ensures var code := Cp(img, name, source, stray).1;
      && (code == FileAlreadyExists <==> Lookup(img, name) != None)
      && (code == Ok <==> && Lookup(img, name) == None
                          && (exists i :: 0 <= i < INODES && img.inodeBits[i] == 0)
                          && HasRoom(img.dataBits, Blocks(|UpToNul(source)|)))
      && (code == Ok || code == FileAlreadyExists || code == NoAvailableINodes)
  {
    var code, n := Cp(img, name, source, stray).1, Blocks(|UpToNul(source)|);
    var i, j := FirstFree(img.inodeBits, 0), FirstFit(img.dataBits, stray, n, 0);
    if code == Ok {
      var i0, j0 := CpPlaces(img, name, source, stray);
      assert FitsAt(img.dataBits, j0, n);
    } else if HasRoom(img.dataBits, n) {
      var k: nat :| FitsAt(img.dataBits, k, n);
      assert LooksFree(img.dataBits, stray, k, n);
    }
  }
}
