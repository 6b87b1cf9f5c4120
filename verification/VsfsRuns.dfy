/** Runs of the file system of soi6: the image always means the map its commands describe. */
module VsfsRuns {

  import opened VsfsImage
  import opened VsfsMap

  // ----------------------------------------------------------------- one step

  lemma LookupIs(img: Image, i: nat)
    requires Inv(img) && i < INODES && img.inodeBits[i] != 0
    ensures Lookup(img, img.inodes[i].name) == Some(Contents(img, i))
  {
  }

  lemma LookupNone(img: Image, x: string)
    requires Sized(img)
    requires forall k :: 0 <= k < INODES && img.inodeBits[k] != 0 ==> img.inodes[k].name != x
    ensures Lookup(img, x) == None
  {
  }

  /** A file keeps its contents in the new image if its inode keeps its name and its bytes. */
  lemma LookupKept(img: Image, img': Image, x: string)
    requires Inv(img) && Inv(img')
    requires forall k: nat {:trigger img.inodes[k]} :: k < INODES && img.inodeBits[k] != 0 && img.inodes[k].name == x ==>
      img'.inodeBits[k] != 0 && img'.inodes[k].name == x && Contents(img', k) == Contents(img, k)
    requires forall k: nat {:trigger img'.inodes[k]} :: k < INODES && img'.inodeBits[k] != 0 && img'.inodes[k].name == x ==>
      img.inodeBits[k] != 0 && img.inodes[k].name == x
    ensures Lookup(img', x) == Lookup(img, x)
  {
  }

  /** Taking a free inode for another name changes nothing for x. */
  lemma LookupKeptByNewFile(img: Image, img': Image, i: nat, x: string)
    requires Inv(img) && Inv(img') && i < INODES && img.inodeBits[i] == 0
    requires img'.inodeBits == img.inodeBits[i := OCCUPIED]
    requires img'.inodes == img.inodes[i := img'.inodes[i]] && img'.inodes[i].name != x
    requires forall k: nat :: k < INODES && img.inodeBits[k] != 0 ==> Contents(img', k) == Contents(img, k)
    ensures Lookup(img', x) == Lookup(img, x)
  {
  }

  lemma EmptyContents(img: Image, i: nat)
    requires Sized(img) && i < INODES && img.inodes[i].size == 0
    ensures Contents(img, i) == []
  {
  }

  /** cp binds the name to the source up to its first NUL, and no other name. */
  lemma CpUpdates(img: Image, name: string, source: seq<Byte>, stray: nat -> Byte, x: string)
    requires Inv(img) && CpInRange(img, source, stray)
    ensures var (img', code) := Cp(img, name, source, stray);
      Inv(img') && Lookup(img', x) == if code == Ok && x == name then Some(UpToNul(source)) else Lookup(img, x)
  {
    CpKeepsInv(img, name, source, stray);
    var (img', code) := Cp(img, name, source, stray);
    if code == Ok {
      var i := CpMakesFile(img, name, source, stray);
      LookupIs(img', i);
      if x != name {
        forall k: nat | k < INODES && img.inodeBits[k] != 0
          ensures k != i && Contents(img', k) == Contents(img, k)
        {
          CpKeepsContents(img, name, source, stray, k);
        }
        hide Inv, Cp, ExtentOk, FindName, CpInRange, Contents;
        LookupKeptByNewFile(img, img', i, x);
      }
    }
  }

  lemma CpKeepsContents(img: Image, name: string, source: seq<Byte>, stray: nat -> Byte, k: nat)
    requires Inv(img) && CpInRange(img, source, stray) && Cp(img, name, source, stray).1 == Ok
    requires k < INODES && img.inodeBits[k] != 0
    ensures Sized(Cp(img, name, source, stray).0)
    ensures Contents(Cp(img, name, source, stray).0, k) == Contents(img, k)
  {
    hide AllApart, NamesUnique, ExtentsOk;
    var img' := Cp(img, name, source, stray).0;
    var i := CpMakesFile(img, name, source, stray);
    if k in img.copied {
      CpSparesOthers(img, name, source, stray, k);
    } else {
      EmptyContents(img, k);
      EmptyContents(img', k);
    }
  }

  /** touch takes one free inode, and leaves all data alone. */
  lemma TouchTakes(img: Image, name: string) returns (i: nat)
    requires Sized(img) && Touch(img, name).1 == Ok
    ensures i < INODES && img.inodeBits[i] == 0
    ensures Touch(img, name).0 == img.(inodeBits := img.inodeBits[i := OCCUPIED],
                                       inodes := img.inodes[i := img.inodes[i].(size := 0, name := name)])
  {
    i := FirstFree(img.inodeBits, 0);
  }

  lemma TouchBinds(img: Image, name: string)
    requires Inv(img) && Touch(img, name).1 == Ok
    ensures Inv(Touch(img, name).0) && Lookup(Touch(img, name).0, name) == Some([])
  {
    TouchKeepsInv(img, name);
    var i := TouchTakes(img, name);
    hide ExtentsOk, AllApart, NamesUnique, OthersEmpty, Contents, Lookup, Touch;
    var img' := Touch(img, name).0;
    LookupIs(img', i);
    EmptyContents(img', i);
  }

  lemma TouchKeepsContents(img: Image, name: string, i: nat, k: nat)
    requires Sized(img) && i < INODES && k < INODES && k != i
    requires Touch(img, name).0 == img.(inodeBits := img.inodeBits[i := OCCUPIED],
                                        inodes := img.inodes[i := img.inodes[i].(size := 0, name := name)])
    ensures Contents(Touch(img, name).0, k) == Contents(img, k)
  {
    hide Touch;
  }

  lemma TouchKeepsOthers(img: Image, name: string, x: string)
    requires Inv(img) && Touch(img, name).1 == Ok && x != name
    ensures Inv(Touch(img, name).0) && Lookup(Touch(img, name).0, x) == Lookup(img, x)
  {
    TouchKeepsInv(img, name);
    var i := TouchTakes(img, name);
    hide ExtentsOk, AllApart, NamesUnique, OthersEmpty, Lookup, Touch, Contents;
    var img' := Touch(img, name).0;
    forall k: nat | k < INODES && img.inodeBits[k] != 0
      ensures Contents(img', k) == Contents(img, k)
    {
      TouchKeepsContents(img, name, i, k);
    }
    LookupKeptByNewFile(img, img', i, x);
  }

  /** touch binds a new name to the empty file, and fails exactly when the name is taken or all
      inodes are. */
  lemma TouchUpdates(img: Image, name: string, x: string)
    requires Inv(img)
    ensures var (img', code) := Touch(img, name);
      && Inv(img')
      && Lookup(img', x) == (if code == Ok && x == name then Some([]) else Lookup(img, x))
      && (code == FileAlreadyExists <==> Lookup(img, name) != None)
      && (code == Ok <==> Lookup(img, name) == None && exists i :: 0 <= i < INODES && img.inodeBits[i] == 0)
  {
    hide ExtentsOk, AllApart, NamesUnique, OthersEmpty, Contents;
    if Touch(img, name).1 == Ok {
      if x == name {
        TouchBinds(img, name);
      } else {
        TouchKeepsOthers(img, name, x);
      }
    }
  }

  /** A harmless rm, wherever it clears, unbinds the name, and no other name; it fails exactly when
      the name is unbound. */
  lemma RmUpdates(img: Image, name: string, start: int, x: string)
    requires Inv(img)
    requires FindName(img, name, 0) < INODES ==> Harmless(img, FindName(img, name, 0), start)
    ensures var (img', code) := RmFrom(img, name, start);
      && Inv(img')
      && Lookup(img', x) == (if x == name then None else Lookup(img, x))
      && code == (if Lookup(img, name) == None then FileNotExisting else Ok)
  {
    if FindName(img, name, 0) < INODES {
      RmFromKeepsInvIff(img, name, start);
      RmFrees(img, name, start);
      hide ExtentsOk, AllApart, NamesUnique, OthersEmpty, Harmless, RmFrom, FindName, Contents;
      if x != name {
        RmKeepsOthers(img, name, start, x);
      } else {
        LookupNone(RmFrom(img, name, start).0, x);
      }
    }
  }

  lemma RmKeepsOthers(img: Image, name: string, start: int, x: string)
    requires Inv(img) && FindName(img, name, 0) < INODES && Inv(RmFrom(img, name, start).0) && x != name
    ensures Lookup(RmFrom(img, name, start).0, x) == Lookup(img, x)
  {
    RmFrees(img, name, start);
    hide ExtentsOk, AllApart, NamesUnique, OthersEmpty, RmFrom, FindName, Lookup;
    var img' := RmFrom(img, name, start).0;
    forall k: nat | k < INODES
      ensures Contents(img', k) == Contents(img, k)
    {
    }
    hide Contents;
    LookupKept(img, img', x);
  }

  /** rm frees the one inode that carries the name. */
  lemma RmFrees(img: Image, name: string, start: int)
    requires Inv(img) && FindName(img, name, 0) < INODES
    ensures var i, img' := FindName(img, name, 0), RmFrom(img, name, start).0;
      && Sized(img') && img'.inodeBits == img.inodeBits[i := 0] && img'.inodes == img.inodes && img'.data == img.data
      && RmFrom(img, name, start).1 == Ok
      && img.inodes[i].name == name
      && (forall k :: 0 <= k < INODES && k != i && img.inodeBits[k] != 0 ==> img.inodes[k].name != name)
  {
  }

  lemma UpToNulWhole(c: seq<Byte>)
    ensures UpToNul(c) == c <==> NulFree(c)
  {
  }

  /** cat and load give back the whole file. */
  lemma ShownWhole(img: Image, x: string)
    requires Inv(img)
    ensures Shown(img, x) == Lookup(img, x)
  {
    hide AllApart, NamesUnique;
    var i := FindName(img, x, 0);
    if i < INODES {
      if i in img.copied {
        assert ExtentOk(img, i);
      } else {
        EmptyContents(img, i);
      }
      UpToNulWhole(Contents(img, i));
    }
  }

  // --------------------------------------------------------------------- runs

  datatype Event =
    | CopyIn(name: string, source: seq<Byte>, stray: nat -> Byte)
    | TouchFile(name: string)
    | Remove(name: string, intended: bool)

  /** Where the removal of a name starts to clear, as written or as intended. */
  function ClearsFrom(img: Image, name: string, intended: bool): int
    requires Sized(img)
  {
    if intended then RmStart(img, FindName(img, name, 0)) else FindName(img, name, 0)
  }

  ghost predicate Enabled(img: Image, e: Event)
    requires Sized(img)
  {
    match e
    case CopyIn(_, source, stray) => CpInRange(img, source, stray)
    case TouchFile(_) => true
    case Remove(name, intended) =>
      FindName(img, name, 0) < INODES ==> Harmless(img, FindName(img, name, 0), ClearsFrom(img, name, intended))
  }

  ghost function Apply(img: Image, e: Event): (Image, Code)
    requires Sized(img) && Enabled(img, e)
  {
    match e
    case CopyIn(name, source, stray) => Cp(img, name, source, stray)
    case TouchFile(name) => Touch(img, name)
    case Remove(name, intended) => if intended then IntendedRm(img, name) else Rm(img, name)
  }

  type Files = map<string, seq<Byte>>

  /** What the command means for the files, given whether it found space. */
  function Meant(m: Files, e: Event, code: Code): Files {
    if code != Ok then m
    else
      match e
      case CopyIn(name, source, _) => m[name := UpToNul(source)]
      case TouchFile(name) => m[name := []]
      case Remove(name, _) => m - {name}
  }

  ghost predicate Describes(m: Files, img: Image) {
    Inv(img) && forall x :: Lookup(img, x) == if x in m then Some(m[x]) else None
  }

  lemma CopyInRefines(m: Files, img: Image, e: Event)
    requires Describes(m, img) && Enabled(img, e) && e.CopyIn?
    ensures var (img', code) := Apply(img, e);
      && Describes(Meant(m, e, code), img')
      && (code == FileAlreadyExists <==> e.name in m)
  {
    hide ExtentsOk, AllApart, NamesUnique, OthersEmpty, Lookup, CpInRange, Cp, HasRoom, UpToNul;
    var (img', code) := Cp(img, e.name, e.source, e.stray);
    var m' := Meant(m, e, code);
    CpOutcome(img, e.name, e.source, e.stray);
    CpUpdates(img, e.name, e.source, e.stray, e.name);
    forall x
      ensures Lookup(img', x) == if x in m' then Some(m'[x]) else None
    {
      CpUpdates(img, e.name, e.source, e.stray, x);
    }
  }

  lemma TouchFileRefines(m: Files, img: Image, e: Event)
    requires Describes(m, img) && e.TouchFile?
    ensures var (img', code) := Touch(img, e.name);
      && Describes(Meant(m, e, code), img')
      && (code == FileAlreadyExists <==> e.name in m)
  {
    hide ExtentsOk, AllApart, NamesUnique, OthersEmpty, Lookup, Touch;
    var (img', code) := Touch(img, e.name);
    var m' := Meant(m, e, code);
    TouchUpdates(img, e.name, e.name);
    forall x
      ensures Lookup(img', x) == if x in m' then Some(m'[x]) else None
    {
      TouchUpdates(img, e.name, x);
    }
  }

  lemma RemoveRefines(m: Files, img: Image, e: Event)
    requires Describes(m, img) && Enabled(img, e) && e.Remove?
    ensures var (img', code) := Apply(img, e);
      && Describes(Meant(m, e, code), img')
      && code == if e.name in m then Ok else FileNotExisting
  {
    hide ExtentsOk, AllApart, NamesUnique, OthersEmpty, Lookup, RmFrom, Harmless, FindName;
    var start := ClearsFrom(img, e.name, e.intended);
    var (img', code) := RmFrom(img, e.name, start);
    assert Apply(img, e) == (img', code);
    var m' := Meant(m, e, code);
    RmUpdates(img, e.name, start, e.name);
    forall x
      ensures Lookup(img', x) == if x in m' then Some(m'[x]) else None
    {
      RmUpdates(img, e.name, start, x);
    }
  }

  /** One command: the image goes on meaning the map, and the code says what the map decides. */
  lemma StepRefines(m: Files, img: Image, e: Event)
    requires Describes(m, img) && Enabled(img, e)
    ensures var (img', code) := Apply(img, e);
      && Describes(Meant(m, e, code), img')
      && (e.Remove? ==> code == if e.name in m then Ok else FileNotExisting)
      && (!e.Remove? ==> (code == FileAlreadyExists <==> e.name in m))
  {
    hide Describes, Inv, Meant, Cp, Touch, Rm, IntendedRm, CpInRange, Harmless;
    match e
    case CopyIn(_, _, _) => CopyInRefines(m, img, e);
    case TouchFile(_) => TouchFileRefines(m, img, e);
    case Remove(_, _) => RemoveRefines(m, img, e);
  }

  ghost predicate Steps(img: Image, e: Event, img': Image, code: Code) {
    Sized(img) && Enabled(img, e) && Apply(img, e) == (img', code)
  }

  /** A run: the image that mkfs made, and after each command the image and the code it left. */
  ghost predicate IsRun(images: seq<Image>, events: seq<Event>, codes: seq<Code>) {
    && |images| == |events| + 1 && |codes| == |events|
    && images[0] == Fresh()
    && forall k: nat {:trigger codes[k]} :: k < |codes| ==> Steps(images[k], events[k], images[k + 1], codes[k])
  }

  lemma RunPrefix(images: seq<Image>, events: seq<Event>, codes: seq<Code>)
    requires IsRun(images, events, codes) && |events| > 0
    ensures var n := |events|;
      && IsRun(images[..n], events[..n - 1], codes[..n - 1])
      && Steps(images[n - 1], events[n - 1], images[n], codes[n - 1])
  {
  }

  /** The files that the commands of a run describe. */
  function MeantBy(events: seq<Event>, codes: seq<Code>): Files
    requires |codes| == |events|
  {
    if events == [] then map[]
    else
      var n := |events| - 1;
      Meant(MeantBy(events[..n], codes[..n]), events[n], codes[n])
  }

  /** After every run, the disk means the map that its commands describe: cat and load of each
      name give exactly what was put there last. */
  lemma {:induction false} RunsRefine(images: seq<Image>, events: seq<Event>, codes: seq<Code>)
    requires IsRun(images, events, codes)
    ensures Describes(MeantBy(events, codes), images[|events|])
    ensures forall x :: Shown(images[|events|], x)
                        == if x in MeantBy(events, codes) then Some(MeantBy(events, codes)[x]) else None
    decreases |events|
  {
    hide ExtentsOk, AllApart, NamesUnique, OthersEmpty, Shown, Lookup, Apply, Enabled, Meant;
    var n := |events|;
    if n == 0 {
      FreshInv();
      forall x
        ensures Lookup(images[0], x) == None
      {
        LookupNone(images[0], x);
      }
    } else {
      RunPrefix(images, events, codes);
      RunsRefine(images[..n], events[..n - 1], codes[..n - 1]);
      StepRefines(MeantBy(events[..n - 1], codes[..n - 1]), images[n - 1], events[n - 1]);
    }
    forall x
      ensures Shown(images[n], x) == Lookup(images[n], x)
    {
      ShownWhole(images[n], x);
    }
  }

  // ------------------------------------------------------------ small files only

  /** Each file has one block, the one numbered as its inode. */
  ghost predicate InStep(img: Image)
    requires Sized(img)
  {
    && (forall i: nat :: i < INODES && img.inodeBits[i] != 0 ==>
          i in img.copied && i < BLOCKS && Start(img, i) == i && img.inodes[i].size < 4096)
    && (forall k: nat :: k < BLOCKS ==> (img.dataBits[k] != 0 <==> img.inodeBits[k] != 0))
  }

  /** cp of a file below one block, or rm. */
  predicate Small(e: Event) {
    match e
    case CopyIn(_, source, _) => |UpToNul(source)| < 4096
    case TouchFile(_) => false
    case Remove(_, intended) => !intended
  }

  lemma SmallIsEnabled(img: Image, e: Event)
    requires Inv(img) && InStep(img) && Small(e)
    ensures Enabled(img, e)
  {
  }

  /** The first free inode and the first free block have the same number. */
  lemma SmallPlace(img: Image, stray: nat -> Byte)
    requires Sized(img) && InStep(img)
    ensures var i, j := FirstFree(img.inodeBits, 0), FirstFit(img.dataBits, stray, 1, 0);
      j < BLOCKS && i < INODES ==> i == j && img.dataBits[j] == 0
  {
    var i, j := FirstFree(img.inodeBits, 0), FirstFit(img.dataBits, stray, 1, 0);
    assert j < BLOCKS ==> Seen(img.dataBits, stray, j) == 0;
    assert i < BLOCKS ==> LooksFree(img.dataBits, stray, i, 1);
  }

  lemma SmallCpKeepsInStep(img: Image, name: string, source: seq<Byte>, stray: nat -> Byte)
    requires Inv(img) && InStep(img) && |UpToNul(source)| < 4096 && CpInRange(img, source, stray)
    ensures Sized(Cp(img, name, source, stray).0) && InStep(Cp(img, name, source, stray).0)
  {
    hide ExtentsOk, AllApart, NamesUnique, OthersEmpty, FindName, UpToNul, CpInRange, FirstFree, FirstFit, LooksFree;
    SmallPlace(img, stray);
  }

  lemma SmallRmKeepsInStep(img: Image, name: string)
    requires Inv(img) && InStep(img)
    ensures Sized(Rm(img, name).0) && InStep(Rm(img, name).0)
  {
  }

  lemma SmallKeepsInStep(img: Image, e: Event)
    requires Inv(img) && InStep(img) && Small(e) && Enabled(img, e)
    ensures Sized(Apply(img, e).0) && InStep(Apply(img, e).0)
  {
    hide Inv, InStep, Cp, Rm, CpInRange, Harmless;
    match e
    case CopyIn(name, source, stray) => SmallCpKeepsInStep(img, name, source, stray);
    case Remove(name, _) => SmallRmKeepsInStep(img, name);
  }

  /** While only files below one block are copied in, and none is made by touch, every cp stays
      inside the bitmap and every rm releases exactly its file's block. */
  lemma {:induction false} SmallRunsAreSafe(images: seq<Image>, events: seq<Event>, codes: seq<Code>, e: Event)
    requires IsRun(images, events, codes)
    requires Small(e) && forall k :: 0 <= k < |events| ==> Small(events[k])
    ensures var img := images[|events|];
      Inv(img) && InStep(img) && Enabled(img, e)
    decreases |events|
  {
    hide Inv, Enabled, Small, Apply;
    var n := |events|;
    RunsRefine(images, events, codes);
    if n > 0 {
      RunPrefix(images, events, codes);
      SmallRunsAreSafe(images[..n], events[..n - 1], codes[..n - 1], events[n - 1]);
      hide InStep;
      SmallKeepsInStep(images[n - 1], events[n - 1]);
    }
    SmallIsEnabled(images[n], e);
  }

  // -------------------------------------------------- rm as intended, no touch

  ghost predicate AllCopied(img: Image)
    requires Sized(img)
  {
    forall i: nat :: i < INODES && img.inodeBits[i] != 0 ==> i in img.copied
  }

  lemma CpKeepsCopied(img: Image, name: string, source: seq<Byte>, stray: nat -> Byte)
    requires Sized(img) && AllCopied(img) && CpInRange(img, source, stray)
    ensures Sized(Cp(img, name, source, stray).0) && AllCopied(Cp(img, name, source, stray).0)
  {
    hide CpInRange, FirstFit, FirstFree, FindName, UpToNul;
  }

  lemma AllCopiedKept(img: Image, e: Event)
    requires Inv(img) && AllCopied(img) && Enabled(img, e) && !e.TouchFile?
    ensures Sized(Apply(img, e).0) && AllCopied(Apply(img, e).0)
  {
    hide ExtentsOk, AllApart, NamesUnique, OthersEmpty, Harmless, CpInRange, Cp;
    if e.CopyIn? {
      CpKeepsCopied(img, e.name, e.source, e.stray);
    }
  }

  /** Without touch, rm as intended may follow every run: it always is harmless, and so (RunsRefine)
      the disk goes on meaning the map whatever is copied in and removed. */
  lemma {:induction false} IntendedRmIsSafe(images: seq<Image>, events: seq<Event>, codes: seq<Code>, name: string)
    requires IsRun(images, events, codes)
    requires forall k :: 0 <= k < |events| ==> !events[k].TouchFile?
    ensures var img := images[|events|];
      Inv(img) && AllCopied(img) && Enabled(img, Remove(name, true))
    decreases |events|
  {
    hide Inv, Apply, Enabled, AllCopied;
    var n := |events|;
    RunsRefine(images, events, codes);
    if n == 0 {
      FreshIsCopied();
    } else {
      RunPrefix(images, events, codes);
      IntendedRmIsSafe(images[..n], events[..n - 1], codes[..n - 1], name);
      RunsRefine(images[..n], events[..n - 1], codes[..n - 1]);
      AllCopiedKept(images[n - 1], events[n - 1]);
    }
    IntendedIsEnabled(images[n], name);
  }

  lemma FreshIsCopied()
    ensures AllCopied(Fresh())
  {
  }

  lemma IntendedIsEnabled(img: Image, name: string)
    requires Inv(img) && AllCopied(img)
    ensures Enabled(img, Remove(name, true))
  {
    var i := FindName(img, name, 0);
    if i < INODES {
      IntendedIsHarmless(img, i);
    }
  }
}
