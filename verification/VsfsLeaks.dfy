/** Which blocks of soi6's disk are taken: exactly those of the files made by cp, unless rm, as it is
    written, leaves some behind. */
module VsfsLeaks {

  import opened VsfsImage
  import opened VsfsMap
  import opened VsfsRuns

  predicate Owns(img: Image, k: nat, x: int)
    requires Sized(img)
  {
    k in img.copied && k < INODES && Start(img, k) <= x < Start(img, k) + Blocks(img.inodes[k].size)
  }

  ghost predicate Owned(img: Image, x: int)
    requires Sized(img)
  {
    exists k: nat :: Owns(img, k, x)
  }

  /** Every marked block belongs to a file. */
  ghost predicate NoLeak(img: Image)
    requires Sized(img)
  {
    forall x :: 0 <= x < BLOCKS && img.dataBits[x] != 0 ==> Owned(img, x)
  }

  lemma PlacedLeaksNone(img: Image, i: nat, j: nat, name: string, c: seq<Byte>)
    requires Sized(img) && NoLeak(img) && i < INODES && i !in img.copied
    requires j + Blocks(|c|) <= BLOCKS && Addr(j) + |c| <= |img.data|
    ensures NoLeak(Placed(img, i, j, name, c))
  {
    var img' := Placed(img, i, j, name, c);
    hide Written, Blocks;
    forall x | 0 <= x < BLOCKS && img'.dataBits[x] != 0
      ensures Owned(img', x)
    {
      if j <= x < j + Blocks(|c|) {
        assert Owns(img', i, x);
      } else {
        var k: nat :| Owns(img, k, x);
        assert Owns(img', k, x);
      }
    }
  }

  lemma CpLeaksNone(img: Image, name: string, source: seq<Byte>, stray: nat -> Byte)
    requires Inv(img) && NoLeak(img) && CpInRange(img, source, stray)
    ensures Sized(Cp(img, name, source, stray).0) && NoLeak(Cp(img, name, source, stray).0)
  {
    if Cp(img, name, source, stray).1 == Ok {
      var i, j := CpPlaces(img, name, source, stray);
      hide Cp, CpInRange, UpToNul, NoLeak, Placed, ExtentsOk, AllApart, NamesUnique, OthersEmpty;
      PlacedLeaksNone(img, i, j, name, UpToNul(source));
    }
  }

  lemma TouchLeaksNone(img: Image, name: string)
    requires Inv(img) && NoLeak(img)
    ensures Sized(Touch(img, name).0) && NoLeak(Touch(img, name).0)
  {
    var img' := Touch(img, name).0;
    if Touch(img, name).1 == Ok {
      var i := TouchTakes(img, name);
      hide Touch;
      assert i !in img.copied;
      hide Inv;
      forall x | 0 <= x < BLOCKS && img'.dataBits[x] != 0
        ensures Owned(img', x)
      {
        var k: nat :| Owns(img, k, x);
        assert Owns(img', k, x);
      }
    }
  }

  /** A removal that clears from `start` on leaves no block behind if and only if its file owns none,
      or starts there. */
  lemma RmLeaksNoneIff(img: Image, name: string, start: int)
    requires Inv(img) && NoLeak(img) && FindName(img, name, 0) < INODES
    ensures var i := FindName(img, name, 0);
      NoLeak(RmFrom(img, name, start).0) <==> (i in img.copied ==> Start(img, i) == start)
  {
    var i, img' := FindName(img, name, 0), RmFrom(img, name, start).0;
    var b, n := Start(img, i), Blocks(img.inodes[i].size);
    if i in img.copied ==> b == start {
      forall x | 0 <= x < BLOCKS && img'.dataBits[x] != 0
        ensures Owned(img', x)
      {
        var k: nat :| Owns(img, k, x);
        assert Owns(img', k, x);
      }
    } else {
      var x := if b < start then b else b + n - 1;
      StillMarked(img, name, start, x);
      assert !Owned(img', x);
    }
  }

  /** The end of the removed file's extent that was not cleared. */
  lemma StillMarked(img: Image, name: string, start: int, x: int)
    requires Inv(img) && FindName(img, name, 0) in img.copied
    requires Owns(img, FindName(img, name, 0), x)
    requires x < start || x >= start + Blocks(img.inodes[FindName(img, name, 0)].size)
    ensures var img' := RmFrom(img, name, start).0;
      0 <= x < BLOCKS && img'.dataBits[x] != 0 && forall k: nat :: !Owns(img', k, x)
  {
    var i, img' := FindName(img, name, 0), RmFrom(img, name, start).0;
    assert ExtentOk(img, i);
    forall k: nat
      ensures !Owns(img', k, x)
    {
      if k in img.copied && k != i && k < INODES {
        assert Apart(img, i, k);
      }
    }
  }

  lemma IntendedRmLeaksNone(img: Image, name: string)
    requires Inv(img) && NoLeak(img)
    ensures Sized(IntendedRm(img, name).0) && NoLeak(IntendedRm(img, name).0)
  {
    if FindName(img, name, 0) < INODES {
      RmLeaksNoneIff(img, name, RmStart(img, FindName(img, name, 0)));
    }
  }

  lemma StepLeaksNone(img: Image, e: Event)
    requires Inv(img) && NoLeak(img) && Enabled(img, e) && (e.Remove? ==> e.intended)
    ensures Sized(Apply(img, e).0) && NoLeak(Apply(img, e).0)
  {
    hide NoLeak, Cp, Touch, IntendedRm;
    match e
    case CopyIn(name, source, stray) => CpLeaksNone(img, name, source, stray);
    case TouchFile(name) => TouchLeaksNone(img, name);
    case Remove(name, _) => IntendedRmLeaksNone(img, name);
  }

  /** In every run in which rm clears from the start it computes, a block is marked if and only if it
      belongs to a file made by cp: none is lost. */
  lemma {:induction false} MarkedIffOwned(images: seq<Image>, events: seq<Event>, codes: seq<Code>)
    requires IsRun(images, events, codes)
    requires forall k :: 0 <= k < |events| ==> (events[k].Remove? ==> events[k].intended)
    ensures var img := images[|events|];
      Inv(img) && NoLeak(img) && forall x :: 0 <= x < BLOCKS ==> (img.dataBits[x] != 0 <==> Owned(img, x))
    decreases |events|
  {
    hide Apply, Enabled;
    var n := |events|;
    RunsRefine(images, events, codes);
    if n > 0 {
      RunPrefix(images, events, codes);
      MarkedIffOwned(images[..n], events[..n - 1], codes[..n - 1]);
      hide NoLeak, Inv;
      StepLeaksNone(images[n - 1], events[n - 1]);
    }
    OwnedIsMarked(images[n]);
  }

  lemma OwnedIsMarked(img: Image)
    requires Inv(img) && NoLeak(img)
    ensures forall x :: 0 <= x < BLOCKS ==> (img.dataBits[x] != 0 <==> Owned(img, x))
  {
    forall x, k: nat | 0 <= x < BLOCKS && Owns(img, k, x)
      ensures img.dataBits[x] != 0
    {
      assert ExtentOk(img, k);
    }
  }
}
