/** The disk image of soi6 updated in place by the loops of mkfs, touch, cp, rm, cat and load. */
module VsfsDisk {

  import opened VsfsImage
  import opened VsfsMap
  import opened VsfsRuns

  class Disk {

    const inodeBits: array<Byte>
    const dataBits: array<Byte>
    const inodes: array<INode>
    const data: array<Byte>

    ghost var copied: set<nat>

    ghost predicate Valid()
      reads this
    {
      && inodeBits.Length == INODES && inodes.Length == INODES
      && dataBits.Length == BLOCKS && data.Length == Addr(BLOCKS)
      && inodeBits != dataBits
    }

    ghost function Abs(): (img: Image)
      reads this, inodeBits, dataBits, inodes, data
      requires Valid()
      ensures Sized(img)
    {
      Image(inodeBits[..], dataBits[..], inodes[..], data[..], copied)
    }

    /** mkfs. */
    constructor ()
      ensures Valid() && Abs() == Fresh() && Inv(Abs())
      ensures fresh(inodeBits) && fresh(dataBits) && fresh(inodes) && fresh(data)
    {
      inodeBits := new Byte[INODES];
      dataBits := new Byte[BLOCKS];
      inodes := new INode[INODES](_ => INode(0, 0, ""));
      data := new Byte[Addr(BLOCKS)](_ => 0);
      copied := {};
      new;
      for i := 0 to INODES
        modifies inodeBits
        invariant forall k :: 0 <= k < i ==> inodeBits[k] == 0
      {
        inodeBits[i] := 0;
      }
      for i := 0 to BLOCKS
        modifies dataBits
        invariant forall k :: 0 <= k < i ==> dataBits[k] == 0
      {
        dataBits[i] := 0;
      }
      FreshInv();
      hide Inv;
    }

    method Find(name: string) returns (i: nat)
      requires Valid()
      ensures i == FindName(Abs(), name, 0)
    {
      i := 0;
      while i < INODES
        invariant i <= INODES && FindName(Abs(), name, 0) == FindName(Abs(), name, i)
      {
        if inodeBits[i] != 0 && inodes[i].name == name {
          return;
        }
        i := i + 1;
      }
    }

    method Touch(name: string) returns (code: Code)
      requires Valid() && Inv(Abs())
      modifies inodeBits, inodes
      ensures Valid() && (Abs(), code) == VsfsImage.Touch(old(Abs()), name)
      ensures Inv(Abs())
    {
      TouchKeepsInv(Abs(), name);
      hide Inv;
      var found := Find(name);
      if found < INODES {
        return FileAlreadyExists;
      }
      var i := 0;
      while i < INODES
        invariant i <= INODES && FirstFree(inodeBits[..], 0) == FirstFree(inodeBits[..], i)
      {
        if inodeBits[i] == 0 {
          inodeBits[i] := OCCUPIED;
          inodes[i] := inodes[i].(size := 0, name := name);
          return Ok;
        }
        i := i + 1;
      }
      return NoAvailableINodes;
    }

    /** Writes b into n places of the bitmap from j on; what lies behind the last block's place
        belongs to no block. */
    method Mark(j: nat, n: nat, b: Byte)
      requires Valid()
      modifies dataBits
      ensures dataBits[..] == Marked(old(dataBits[..]), j, n, b)
    {
      ghost var was := dataBits[..];
      for z := 0 to n
        invariant dataBits[..] == Marked(was, j, z, b)
      {
        if j + z < dataBits.Length {
          dataBits[j + z] := b;
        }
        assert dataBits[..] == Marked(was, j, z + 1, b);
      }
    }

    /** Writes the bytes c into the data from `at` on. */
    method Write(at: nat, c: seq<Byte>)
      requires at + |c| <= data.Length
      modifies data
      ensures data[..] == Written(old(data[..]), at, c)
    {
      ghost var was := data[..];
      for z := 0 to |c|
        invariant data[..] == Written(was, at, c[..z])
      {
        data[at + z] := c[z];
        assert data[..] == Written(was, at, c[..z + 1]);
      }
      assert c[..|c|] == c;
    }

    method Rm(name: string) returns (code: Code)
      requires Valid() && Inv(Abs())
      modifies this, inodeBits, dataBits
      ensures Valid() && (Abs(), code) == VsfsImage.Rm(old(Abs()), name)
      ensures FindName(old(Abs()), name, 0) < INODES ==>
        (Inv(Abs()) <==> RmHarmless(old(Abs()), FindName(old(Abs()), name, 0)))
    {
      var i := Find(name);
      if i == INODES {
        return FileNotExisting;
      }
      RmKeepsInvIff(Abs(), name);
      hide Inv, RmHarmless;
      inodeBits[i] := 0;
      Mark(i, Blocks(inodes[i].size), 0);
      copied := copied - {i};
      code := Ok;
    }

    /** strlen: the source's length up to its first NUL. */
    method Length(source: seq<Byte>) returns (size: nat)
      ensures size == |UpToNul(source)| && source[..size] == UpToNul(source)
    {
      size := 0;
      while size < |source| && source[size] != 0
        invariant size <= |source| && NulFree(source[..size])
      {
        assert source[..size + 1] == source[..size] + [source[size]];
        size := size + 1;
      }
      UpToNulIs(source, size);
    }

    /** Whether the n blocks from j on look free. */
    method Available(j: nat, n: nat, stray: nat -> Byte) returns (available: bool)
      requires Valid() && j < BLOCKS
      ensures available <==> LooksFree(dataBits[..], stray, j, n)
    {
      available := true;
      for k := 0 to n
        invariant available <==> LooksFree(dataBits[..], stray, j, k)
      {
        var bit := if j + k < BLOCKS then dataBits[j + k] else stray(j + k);
        assert bit == Seen(dataBits[..], stray, j + k);
        if bit != 0 {
          available := false;
        }
      }
    }

    /** The first place that looks free. */
    method FindPlace(n: nat, stray: nat -> Byte) returns (j: nat)
      requires Valid() && n >= 1
      ensures j == FirstFit(dataBits[..], stray, n, 0)
    {
      j := 0;
      while j < BLOCKS
        invariant j <= BLOCKS && FirstFit(dataBits[..], stray, n, 0) == FirstFit(dataBits[..], stray, n, j)
      {
        if dataBits[j] == 0 {
          var available := Available(j, n, stray);
          if available {
            return;
          }
        }
        assert dataBits[j] != 0 ==> Seen(dataBits[..], stray, j) != 0;
        j := j + 1;
      }
    }

    /** Locks inode and blocks, and writes the inode and the data. */
    method Place(i: nat, j: nat, name: string, c: seq<Byte>)
      requires Valid() && i < INODES && j + Blocks(|c|) <= BLOCKS
      modifies this, inodeBits, dataBits, inodes, data
      ensures Valid() && Addr(j) + |c| <= |old(Abs()).data|
      ensures Abs() == Placed(old(Abs()), i, j, name, c)
    {
      BlocksCover(|c|);
      inodeBits[i] := OCCUPIED;
      inodes[i] := INode(DATA_OFFSET + j, |c|, name);
      Mark(j, Blocks(|c|), OCCUPIED);
      Write(Addr(j), c);
      copied := copied + {i};
    }

    /** The outermost loop of cp: to each free inode in turn, the first place that fits. */
    method PlaceFirst(name: string, c: seq<Byte>, stray: nat -> Byte) returns (code: Code)
      requires Valid() && PlaceInRange(dataBits[..], Blocks(|c|), stray)
      modifies this, inodeBits, dataBits, inodes, data
      ensures Valid()
      ensures var img, n := old(Abs()), Blocks(|c|);
        var i, j := FirstFree(img.inodeBits, 0), FirstFit(img.dataBits, stray, n, 0);
        if i == INODES || j == BLOCKS then Abs() == img && code == NoAvailableINodes
        else && code == Ok && Addr(j) + |c| <= |img.data|
             && Abs() == Placed(img, i, j, name, c)
    {
      ghost var img := Abs();
      var i := 0;
      while i < INODES
        invariant i <= INODES && Abs() == img
        invariant FirstFree(img.inodeBits, 0) == FirstFree(img.inodeBits, i)
          || (FirstFree(img.inodeBits, 0) < INODES && FirstFit(img.dataBits, stray, Blocks(|c|), 0) == BLOCKS)
      {
        if inodeBits[i] == 0 {
          var j := FindPlace(Blocks(|c|), stray);
          if j < BLOCKS {
            Place(i, j, name, c);
            return Ok;
          }
        }
        i := i + 1;
      }
      return NoAvailableINodes;
    }

    method Cp(name: string, source: seq<Byte>, stray: nat -> Byte) returns (code: Code)
      requires Valid() && Inv(Abs()) && CpInRange(Abs(), source, stray)
      modifies this, inodeBits, dataBits, inodes, data
      ensures Valid() && (Abs(), code) == VsfsImage.Cp(old(Abs()), name, source, stray)
      ensures Inv(Abs())
    {
      CpKeepsInv(Abs(), name, source, stray);
      hide Inv, FindName, FirstFree, FirstFit, Placed, UpToNul, PlaceInRange, Blocks;
      var found := Find(name);
      if found < INODES {
        return FileAlreadyExists;
      }
      var size := Length(source);
      var c := source[..size];
      assert PlaceInRange(dataBits[..], Blocks(|c|), stray);
      code := PlaceFirst(name, c, stray);
    }

    /** The bytes from `at` on in a buffer of their own, closed by a NUL. */
    method Fetch(at: int, size: nat) returns (buffer: array<Byte>)
      requires size > 0 ==> 0 <= at && at + size <= data.Length
      ensures fresh(buffer) && buffer.Length == size + 1 && buffer[size] == 0
      ensures size > 0 ==> buffer[..size] == data[at..at + size]
    {
      buffer := new Byte[size + 1];
      for z := 0 to size
        invariant forall k :: 0 <= k < z ==> buffer[k] == data[at + k]
      {
        buffer[z] := data[at + z];
      }
      buffer[size] := 0;
    }

    /** The bytes of the file up to the first NUL. */
    method Read(i: nat) returns (shown: seq<Byte>)
      requires Valid() && Inv(Abs()) && i < INODES && inodeBits[i] != 0
      ensures shown == UpToNul(Contents(Abs(), i))
    {
      ReadInRange(Abs(), i);
      hide Inv, Contents, UpToNul;
      ghost var c := Contents(Abs(), i);
      var size := inodes[i].size;
      var buffer := Fetch(Addr(inodes[i].startingBlock - DATA_OFFSET), size);
      NulEnds(c);
      assert buffer[..] == c + [0];
      var length := Length(buffer[..]);
      shown := buffer[..length];
    }

    method Show(name: string) returns (shown: Option<seq<Byte>>)
      requires Valid() && Inv(Abs())
      ensures shown == Shown(Abs(), name) == Lookup(Abs(), name)
    {
      var i := Find(name);
      ShownWhole(Abs(), name);
      if i < INODES {
        var c := Read(i);
        return Some(c);
      }
      return None;
    }
  }

  /** The prefix without a NUL that cannot be extended. */
  lemma {:induction false} UpToNulIs(c: seq<Byte>, n: nat)
    requires n <= |c| && NulFree(c[..n]) && (n < |c| ==> c[n] == 0)
    ensures UpToNul(c) == c[..n]
  {
  }

  lemma ReadInRange(img: Image, i: nat)
    requires Inv(img) && i < INODES && img.inodeBits[i] != 0
    ensures var at, size := Addr(img.inodes[i].startingBlock - DATA_OFFSET), img.inodes[i].size;
      && |Contents(img, i)| == size
      && (size > 0 ==> 0 <= at && at + size <= |img.data| && Contents(img, i) == img.data[at..at + size])
  {
  }

  lemma {:induction false} NulEnds(c: seq<Byte>)
    ensures UpToNul(c + [0]) == UpToNul(c)
  {
    if c != [] {
      assert (c + [0])[1..] == c[1..] + [0];
      NulEnds(c[1..]);
    }
  }
}
