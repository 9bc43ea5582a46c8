/** The base-image cache: which images it holds, which one `resolve` picks, and
    which files `gc_candidates` wants removed, as functions of a directory
    listing. Files in no known form are ignored by the code and absent here. */
module BaseImageCache {
  import opened Basics
  import opened Sorting

  /** The three fields of a manifest that identify a build. */
  datatype Identity = Identity(major: string, variant: string, builtAt: string)

  /** `<stem>.manifest.json` (content `None` when it does not parse) and
      `<stem>.qcow2`, in the cache root (`dir` empty) or a subdirectory. */
  datatype File = Manifest(dir: string, stem: string, content: Option<Identity>) | Image(dir: string, stem: string)

  /** `BaseImageInfo`: a parsed manifest with its image beside it. */
  datatype Info = Info(dir: string, stem: string, identity: Identity)

  type Group = (string, string)

  function GroupOf(i: Info): Group { (i.identity.major, i.identity.variant) }

  /** A listing names each file once. */
  ghost predicate Listing(fs: seq<File>) {
    forall i, j :: 0 <= i < j < |fs| ==>
      !(fs[i].dir == fs[j].dir && fs[i].stem == fs[j].stem && fs[i].Manifest? == fs[j].Manifest?)
  }

  // ----- complete images -----

  function InfosFrom(part: seq<File>, all: seq<File>): seq<Info> {
    if part == [] then []
    else
      var f := part[|part| - 1];
      InfosFrom(part[..|part| - 1], all)
      + if f.Manifest? && f.content.Some? && Image(f.dir, f.stem) in all then [Info(f.dir, f.stem, f.content.value)] else []
  }

  /** `collect_images_in`: complete images in listing order. */
  function Infos(fs: seq<File>): seq<Info> { InfosFrom(fs, fs) }

  ghost predicate Complete(fs: seq<File>, i: Info) {
    Manifest(i.dir, i.stem, Some(i.identity)) in fs && Image(i.dir, i.stem) in fs
  }

  lemma {:induction false} InfosFromMembers(part: seq<File>, all: seq<File>, i: Info)
    ensures i in InfosFrom(part, all)
       <==> Manifest(i.dir, i.stem, Some(i.identity)) in part && Image(i.dir, i.stem) in all
  {
    if part != [] {
      InfosFromMembers(part[..|part| - 1], all, i);
      assert part == part[..|part| - 1] + [part[|part| - 1]];
    }
  }

  lemma InfosMembers(fs: seq<File>, i: Info)
    ensures i in Infos(fs) <==> Complete(fs, i)
  {
    InfosFromMembers(fs, fs, i);
  }

  lemma SameListing(fs: seq<File>, f: File, g: File)
    requires Listing(fs) && f in fs && g in fs
    requires f.dir == g.dir && f.stem == g.stem && f.Manifest? == g.Manifest?
    ensures f == g
  {
    var i :| 0 <= i < |fs| && fs[i] == f;
    var j :| 0 <= j < |fs| && fs[j] == g;
  }

  // ----- the freshest image of a group -----

  /** The image kept for a group: of the greatest `built_at`, the first listed. */
  function Best(infos: seq<Info>, g: Group): Option<Info> {
    if infos == [] then None
    else
      var b, x := Best(infos[..|infos| - 1], g), infos[|infos| - 1];
      if GroupOf(x) != g then b
      else if b.Some? && LexLeq(x.identity.builtAt, b.value.identity.builtAt) then b
      else Some(x)
  }

  lemma {:induction false} BestIsFreshest(infos: seq<Info>, g: Group)
    ensures Best(infos, g).None? <==> forall i :: i in infos ==> GroupOf(i) != g
    ensures Best(infos, g).Some? ==> Best(infos, g).value in infos && GroupOf(Best(infos, g).value) == g
    ensures Best(infos, g).Some? ==>
      forall i :: i in infos && GroupOf(i) == g ==> LexLeq(i.identity.builtAt, Best(infos, g).value.identity.builtAt)
  {
    if infos != [] {
      var n := |infos| - 1;
      var b, x := Best(infos[..n], g), infos[n];
      BestIsFreshest(infos[..n], g);
      assert infos == infos[..n] + [x];
      if GroupOf(x) == g {
        LexTotal(x.identity.builtAt, x.identity.builtAt);
        if b.Some? && !LexLeq(x.identity.builtAt, b.value.identity.builtAt) {
          LexTotal(x.identity.builtAt, b.value.identity.builtAt);
          forall i | i in infos[..n] && GroupOf(i) == g ensures LexLeq(i.identity.builtAt, x.identity.builtAt) {
            LexTransitive(i.identity.builtAt, b.value.identity.builtAt, x.identity.builtAt);
          }
        }
      }
    }
  }

  /** What the code does instead: filter, sort newest first, take the first. */
  function InGroup(infos: seq<Info>, g: Group): seq<Info> {
    if infos == [] then []
    else InGroup(infos[..|infos| - 1], g) + if GroupOf(infos[|infos| - 1]) == g then [infos[|infos| - 1]] else []
  }

  function NewestFirst(a: Info, b: Info): bool { LexLeq(b.identity.builtAt, a.identity.builtAt) }

  lemma {:induction false} SortHeadIsBest(infos: seq<Info>, g: Group)
    ensures var sorted := Sort(InGroup(infos, g), NewestFirst);
            Best(infos, g) == if sorted == [] then None else Some(sorted[0])
  {
    if infos != [] {
      var n := |infos| - 1;
      SortHeadIsBest(infos[..n], g);
      var before := InGroup(infos[..n], g);
      if GroupOf(infos[n]) != g {
        assert InGroup(infos, g) == before;
      } else {
        assert InGroup(infos, g) == before + [infos[n]];
        SortAppend(before, infos[n], NewestFirst);
        InsertHead(Sort(before, NewestFirst), infos[n], NewestFirst);
      }
    }
  }

  /** `resolve`: directory and stem of the image chosen for a profile. */
  function Resolve(fs: seq<File>, major: string, variant: string): Option<(string, string)> {
    var b := Best(Infos(fs), (major, variant));
    if b.Some? then Some((b.value.dir, b.value.stem)) else None
  }

  // ----- what gc wants removed -----

  /** A complete image that is not the one kept for its group. */
  ghost predicate Stale(fs: seq<File>, dir: string, stem: string) {
    exists i :: i in Infos(fs) && i.dir == dir && i.stem == stem && Best(Infos(fs), GroupOf(i)) != Some(i)
  }

  /** Same stem, other kind, in any directory: what makes a file no orphan. */
  predicate Counterparts(f: File, c: File) {
    f.stem == c.stem && f.Manifest? != c.Manifest?
  }

  ghost predicate HasCounterpart(fs: seq<File>, f: File) {
    exists c :: c in fs && Counterparts(f, c)
  }

  ghost predicate Orphan(fs: seq<File>, f: File) {
    f in fs && !HasCounterpart(fs, f)
  }

  ghost predicate Keep(fs: seq<File>, f: File) {
    !Stale(fs, f.dir, f.stem) && HasCounterpart(fs, f)
  }

  ghost predicate NothingToRemove(fs: seq<File>) {
    forall f :: f in fs ==> Keep(fs, f)
  }

  ghost function Kept(part: seq<File>, fs: seq<File>): seq<File> {
    if part == [] then []
    else Kept(part[..|part| - 1], fs) + if Keep(fs, part[|part| - 1]) then [part[|part| - 1]] else []
  }

  /** The cache after every removal, listed in the same order. */
  ghost function Clean(fs: seq<File>): seq<File> { Kept(fs, fs) }

  lemma {:induction false} KeptMembers(part: seq<File>, fs: seq<File>, f: File)
    ensures f in Kept(part, fs) <==> f in part && Keep(fs, f)
  {
    if part != [] {
      KeptMembers(part[..|part| - 1], fs, f);
      assert part == part[..|part| - 1] + [part[|part| - 1]];
    }
  }

  lemma {:induction false} KeptIsListing(part: seq<File>, fs: seq<File>)
    requires Listing(part)
    ensures Listing(Kept(part, fs))
  {
    if part != [] {
      var n := |part| - 1;
      KeptIsListing(part[..n], fs);
      forall i | 0 <= i < |Kept(part[..n], fs)|
        ensures exists j :: 0 <= j < n && part[j] == Kept(part[..n], fs)[i]
      {
        var f := Kept(part[..n], fs)[i];
        KeptMembers(part[..n], fs, f);
        var j :| 0 <= j < n && part[..n][j] == f;
        assert part[j] == f;
      }
    }
  }

  lemma CleanMembers(fs: seq<File>, f: File)
    ensures f in Clean(fs) <==> f in fs && Keep(fs, f)
  {
    KeptMembers(fs, fs, f);
  }

  // ----- cleaning keeps exactly the best image of each group -----

  /** No file of a complete image is ever an orphan. */
  lemma CompleteIsNoOrphan(fs: seq<File>, i: Info, f: File)
    requires i in Infos(fs) && f.dir == i.dir && f.stem == i.stem
    ensures !Orphan(fs, f)
  {
    InfosMembers(fs, i);
    assert Counterparts(f, if f.Manifest? then Image(i.dir, i.stem) else Manifest(i.dir, i.stem, Some(i.identity)));
  }

  lemma OneInfoPerPlace(fs: seq<File>, i: Info, j: Info)
    requires Listing(fs) && i in Infos(fs) && j in Infos(fs) && i.dir == j.dir && i.stem == j.stem
    ensures i == j
  {
    InfosMembers(fs, i);
    InfosMembers(fs, j);
    SameListing(fs, Manifest(i.dir, i.stem, Some(i.identity)), Manifest(j.dir, j.stem, Some(j.identity)));
  }

  lemma CleanInfos(fs: seq<File>, i: Info)
    requires Listing(fs)
    ensures i in Infos(Clean(fs)) <==> i in Infos(fs) && Best(Infos(fs), GroupOf(i)) == Some(i)
  {
    var m, d := Manifest(i.dir, i.stem, Some(i.identity)), Image(i.dir, i.stem);
    InfosMembers(fs, i);
    InfosMembers(Clean(fs), i);
    CleanMembers(fs, m);
    CleanMembers(fs, d);
    if i in Infos(fs) {
      assert Counterparts(m, d) && Counterparts(d, m);
      if Stale(fs, i.dir, i.stem) {
        var j :| j in Infos(fs) && j.dir == i.dir && j.stem == i.stem && Best(Infos(fs), GroupOf(j)) != Some(j);
        OneInfoPerPlace(fs, i, j);
      }
    }
  }

  /** Cleaning leaves the kept image of every group in place. */
  lemma CleanKeepsBest(fs: seq<File>, g: Group)
    requires Listing(fs)
    ensures Best(Infos(Clean(fs)), g) == Best(Infos(fs), g)
  {
    BestIsFreshest(Infos(fs), g);
    BestIsFreshest(Infos(Clean(fs)), g);
    var b, c := Best(Infos(fs), g), Best(Infos(Clean(fs)), g);
    if b.Some? { CleanInfos(fs, b.value); }
    if c.Some? { CleanInfos(fs, c.value); }
  }

  /** Cleaning never changes what is resolved, for any profile, as long as the
      directory keeps listing the remaining files in the same order. */
  lemma CleanKeepsResolve(fs: seq<File>, major: string, variant: string)
    requires Listing(fs)
    ensures Resolve(Clean(fs), major, variant) == Resolve(fs, major, variant)
  {
    CleanKeepsBest(fs, (major, variant));
  }

  ghost predicate SameFiles(a: seq<File>, b: seq<File>) {
    forall f :: f in a <==> f in b
  }

  /** How fresh the resolved image is. */
  function BuiltAt(fs: seq<File>, g: Group): Option<string> {
    var b := Best(Infos(fs), g);
    if b.Some? then Some(b.value.identity.builtAt) else None
  }

  lemma BuiltAtIgnoresOrder(a: seq<File>, b: seq<File>, g: Group)
    requires SameFiles(a, b)
    ensures BuiltAt(a, g) == BuiltAt(b, g)
  {
    forall i ensures i in Infos(a) <==> i in Infos(b) {
      InfosMembers(a, i);
      InfosMembers(b, i);
    }
    BestIsFreshest(Infos(a), g);
    BestIsFreshest(Infos(b), g);
    if Best(Infos(a), g).Some? {
      LexAntisymmetric(Best(Infos(a), g).value.identity.builtAt, Best(Infos(b), g).value.identity.builtAt);
    }
  }

  /** However the directory is listed before, during and after cleaning, the
      resolved image is of the same build time. */
  lemma CleanKeepsBuildTime(before: seq<File>, during: seq<File>, after: seq<File>, g: Group)
    requires Listing(during) && SameFiles(before, during) && SameFiles(Clean(during), after)
    ensures BuiltAt(after, g) == BuiltAt(before, g)
  {
    BuiltAtIgnoresOrder(before, during, g);
    CleanKeepsBest(during, g);
    BuiltAtIgnoresOrder(Clean(during), after, g);
  }

  // ----- how many rounds it takes -----

  lemma NothingStaleAfterCleaning(fs: seq<File>, dir: string, stem: string)
    requires Listing(fs)
    ensures !Stale(Clean(fs), dir, stem)
  {
    if Stale(Clean(fs), dir, stem) {
      var i :| i in Infos(Clean(fs)) && i.dir == dir && i.stem == stem && Best(Infos(Clean(fs)), GroupOf(i)) != Some(i);
      CleanInfos(fs, i);
      CleanKeepsBest(fs, GroupOf(i));
    }
  }

  /** Nor is anything stale when the cleaned cache is listed in another order:
      each group has one image left. */
  lemma NothingStaleInAnyOrder(fs: seq<File>, again: seq<File>, dir: string, stem: string)
    requires Listing(fs) && SameFiles(again, Clean(fs))
    ensures !Stale(again, dir, stem)
  {
    forall i | i in Infos(again) ensures Best(Infos(again), GroupOf(i)) == Some(i) {
      BestIsFreshest(Infos(again), GroupOf(i));
      OneLeft(fs, again, i);
      OneLeft(fs, again, Best(Infos(again), GroupOf(i)).value);
    }
  }

  lemma OneLeft(fs: seq<File>, again: seq<File>, i: Info)
    requires Listing(fs) && SameFiles(again, Clean(fs)) && i in Infos(again)
    ensures Best(Infos(fs), GroupOf(i)) == Some(i)
  {
    InfosMembers(again, i);
    InfosMembers(Clean(fs), i);
    CleanInfos(fs, i);
  }

  /** Two rounds always reach a cache in which there is nothing to remove, in
      whatever order the directory is listed for the second round and after it. */
  lemma TwoRoundsSuffice(fs: seq<File>, second: seq<File>, last: seq<File>)
    requires Listing(fs) && Listing(second)
    requires SameFiles(second, Clean(fs)) && SameFiles(last, Clean(second))
    ensures NothingToRemove(last)
  {
    forall f | f in last ensures Keep(last, f) {
      NothingStaleInAnyOrder(second, last, f.dir, f.stem);
      CleanMembers(second, f);
      var c :| c in second && Counterparts(f, c);
      NothingStaleInAnyOrder(fs, second, c.dir, c.stem);
      assert Counterparts(c, f);
      CleanMembers(second, c);
    }
  }

  /** A file that is neither stale nor an orphan, but all of whose counterparts
      belong to stale images. */
  ghost predicate Stranded(fs: seq<File>, f: File) {
    && f in fs && !Stale(fs, f.dir, f.stem) && HasCounterpart(fs, f)
    && forall c :: c in fs && Counterparts(f, c) ==> Stale(fs, c.dir, c.stem)
  }

  /** One round is enough exactly when no file is stranded. */
  lemma OneRoundIff(fs: seq<File>)
    requires Listing(fs)
    ensures NothingToRemove(Clean(fs)) <==> forall f :: f in fs ==> !Stranded(fs, f)
  {
    var g := Clean(fs);
    forall f | f in fs ensures Stranded(fs, f) <==> f in g && !Keep(g, f) {
      CleanMembers(fs, f);
      NothingStaleAfterCleaning(fs, f.dir, f.stem);
      if f in g {
        forall c | c in fs && Counterparts(f, c) ensures c in g <==> !Stale(fs, c.dir, c.stem) {
          assert Counterparts(c, f);
          CleanMembers(fs, c);
        }
        forall c | c in g ensures c in fs { CleanMembers(fs, c); }
      }
    }
    forall f | f in g ensures f in fs { CleanMembers(fs, f); }
  }

  /** In particular when no stem occurs in two directories. */
  lemma OneRoundForDistinctStems(fs: seq<File>)
    requires Listing(fs)
    requires forall f, c :: f in fs && c in fs && f.stem == c.stem ==> f.dir == c.dir
    ensures NothingToRemove(Clean(fs))
  {
    forall f | f in fs ensures !Stranded(fs, f) {
      if HasCounterpart(fs, f) {
        var c :| c in fs && Counterparts(f, c);
        assert c.dir == f.dir;
      }
    }
    OneRoundIff(fs);
  }

  /** A cache in which `b/x` has only a manifest, held back by the image of the
      superseded build `a/x`. */
  function StrandedCache(): seq<File> {
    [Manifest("a", "x", Some(Identity("13", "VANILLA", "1"))), Image("a", "x"),
     Manifest("", "y", Some(Identity("13", "VANILLA", "2"))), Image("", "y"), Manifest("b", "x", None)]
  }

  lemma SupersededBuild()
    ensures Stale(StrandedCache(), "a", "x") && !Stale(StrandedCache(), "b", "x")
  {
    var fs := StrandedCache();
    var i, j := Info("a", "x", Identity("13", "VANILLA", "1")), Info("", "y", Identity("13", "VANILLA", "2"));
    InfosMembers(fs, i);
    InfosMembers(fs, j);
    assert fs[0] in fs && fs[1] in fs && fs[2] in fs && fs[3] in fs;
    BestIsFreshest(Infos(fs), ("13", "VANILLA"));
    assert !LexLeq("2", "1");
    forall k ensures !(k in Infos(fs) && k.dir == "b") { InfosMembers(fs, k); }
  }

  lemma XIsStranded()
    ensures Stranded(StrandedCache(), Manifest("b", "x", None))
  {
    var fs, f := StrandedCache(), Manifest("b", "x", None);
    SupersededBuild();
    assert f == fs[4] && fs[1] in fs && Counterparts(f, fs[1]);
    forall c | c in fs && Counterparts(f, c) ensures c == fs[1] {}
  }

  lemma StrandedCacheIsListing()
    ensures Listing(StrandedCache())
  {}

  /** One round is not always enough. */
  lemma {:induction false} OneRoundWitness() returns (fs: seq<File>)
    ensures Listing(fs) && !NothingToRemove(Clean(fs))
  {
    fs := StrandedCache();
    StrandedCacheIsListing();
    XIsStranded();
    OneRoundIff(fs);
  }

  // ----- the code that computes it -----

  datatype CacheError = ReadDir

  /** One entry of the cache root; `readable` is whether the subdirectory's own
      listing succeeds. */
  datatype Entry = Plain(file: File) | SubDir(readable: bool, files: seq<File>)

  datatype Root = Missing | Unreadable | Listed(entries: seq<Entry>)

  /** Every file of the root and of its readable subdirectories. */
  function Flatten(entries: seq<Entry>): seq<File> {
    if entries == [] then []
    else
      var e := entries[|entries| - 1];
      Flatten(entries[..|entries| - 1])
      + match e case Plain(f) => [f] case SubDir(readable, files) => if readable then files else []
  }

  /** The entry is the file, or a readable subdirectory with it inside. */
  predicate Holds(e: Entry, f: File) {
    match e
    case Plain(g) => g == f
    case SubDir(readable, files) => readable && f in files
  }

  /** The file lies in the root or one level down in a readable subdirectory. */
  ghost predicate InCache(root: Root, f: File) {
    root.Listed? && exists k :: 0 <= k < |root.entries| && Holds(root.entries[k], f)
  }

  lemma {:induction false} FlattenMembers(entries: seq<Entry>, f: File)
    ensures f in Flatten(entries) <==> exists k :: 0 <= k < |entries| && Holds(entries[k], f)
  {
    if entries != [] {
      var n := |entries| - 1;
      FlattenMembers(entries[..n], f);
      assert f in Flatten(entries) <==> f in Flatten(entries[..n]) || Holds(entries[n], f);
      if k :| 0 <= k < |entries| && Holds(entries[k], f) {
        if k < n { assert Holds(entries[..n][k], f); }
      }
      if k :| 0 <= k < n && Holds(entries[..n][k], f) { assert Holds(entries[k], f); }
    }
  }

  lemma Collected(root: Root, manifests: bool, f: File)
    ensures f in Only(FilesOf(root), manifests) <==> InCache(root, f) && f.Manifest? == manifests
  {
    OnlyMembers(FilesOf(root), manifests, f);
    if root.Listed? { FlattenMembers(root.entries, f); }
  }

  function FilesOf(root: Root): seq<File> {
    if root.Listed? then Flatten(root.entries) else []
  }

  function Only(fs: seq<File>, manifests: bool): seq<File> {
    if fs == [] then []
    else Only(fs[..|fs| - 1], manifests) + if fs[|fs| - 1].Manifest? == manifests then [fs[|fs| - 1]] else []
  }

  lemma {:induction false} OnlyConcat(a: seq<File>, b: seq<File>, manifests: bool)
    ensures Only(a + b, manifests) == Only(a, manifests) + Only(b, manifests)
  {
    if b == [] {
      assert a + b == a;
    } else {
      OnlyConcat(a, b[..|b| - 1], manifests);
      assert (a + b)[..|a + b| - 1] == a + b[..|b| - 1];
    }
  }

  lemma {:induction false} OnlyMembers(fs: seq<File>, manifests: bool, f: File)
    ensures f in Only(fs, manifests) <==> f in fs && f.Manifest? == manifests
  {
    if fs != [] {
      OnlyMembers(fs[..|fs| - 1], manifests, f);
      assert fs == fs[..|fs| - 1] + [fs[|fs| - 1]];
    }
  }

  method PushFiles(files: seq<File>, manifests: seq<File>, images: seq<File>) returns (ms: seq<File>, qs: seq<File>)
    ensures ms == manifests + Only(files, true) && qs == images + Only(files, false)
  {
    ms, qs := manifests, images;
    for j := 0 to |files|
      invariant ms == manifests + Only(files[..j], true) && qs == images + Only(files[..j], false)
    {
      assert files[..j + 1][..j] == files[..j];
      if files[j].Manifest? { ms := ms + [files[j]]; } else { qs := qs + [files[j]]; }
    }
    assert files[..|files|] == files;
  }

  /** `collect_cache_files`: root files and files one level down, split by kind. */
  method CollectCacheFiles(root: Root) returns (r: Result<(seq<File>, seq<File>), CacheError>)
    ensures r.Err? <==> root.Unreadable?
    ensures r.Ok? ==> forall f :: f in r.value.0 <==> InCache(root, f) && f.Manifest?
    ensures r.Ok? ==> forall f :: f in r.value.1 <==> InCache(root, f) && f.Image?
    ensures r.Ok? ==> r.value == (Only(FilesOf(root), true), Only(FilesOf(root), false))
  {
    forall f ensures f in Only(FilesOf(root), true) <==> InCache(root, f) && f.Manifest? { Collected(root, true, f); }
    forall f ensures f in Only(FilesOf(root), false) <==> InCache(root, f) && f.Image? { Collected(root, false, f); }
    if root.Missing? { return Ok(([], [])); }
    if root.Unreadable? { return Err(ReadDir); }
    var manifests: seq<File>, images: seq<File> := [], [];
    for k := 0 to |root.entries|
      invariant manifests == Only(Flatten(root.entries[..k]), true)
      invariant images == Only(Flatten(root.entries[..k]), false)
    {
      assert root.entries[..k + 1][..k] == root.entries[..k];
      ghost var before := Flatten(root.entries[..k]);
      var files := match root.entries[k]
        case Plain(f) => [f]
        case SubDir(readable, fs) => if readable then fs else [];
      OnlyConcat(before, files, true);
      OnlyConcat(before, files, false);
      manifests, images := PushFiles(files, manifests, images);
    }
    assert root.entries[..|root.entries|] == root.entries;
    return Ok((manifests, images));
  }

  /** `collect_images_in` on the collected manifests. */
  method CollectImages(fs: seq<File>) returns (found: seq<Info>)
    ensures found == Infos(fs)
  {
    found := [];
    for k := 0 to |fs|
      invariant found == InfosFrom(fs[..k], fs)
    {
      assert fs[..k + 1][..k] == fs[..k];
      match fs[k] {
        case Manifest(dir, stem, content) =>
          if content.Some? && Image(dir, stem) in fs {
            found := found + [Info(dir, stem, content.value)];
          }
        case Image(_, _) =>
      }
    }
    assert fs[..|fs|] == fs;
  }

  /** Entry `p` of the listing is the manifest of a complete image. */
  ghost predicate CompleteAt(fs: seq<File>, p: nat) {
    p < |fs| && fs[p].Manifest? && fs[p].content.Some? && Image(fs[p].dir, fs[p].stem) in fs
  }

  /** ... of this Android version and variant. */
  ghost predicate Fits(fs: seq<File>, p: nat, major: string, variant: string) {
    CompleteAt(fs, p) && fs[p].content.value.major == major && fs[p].content.value.variant == variant
  }

  /** No fitting image was built later, and none listed before it as late. */
  ghost predicate Freshest(fs: seq<File>, p: nat, major: string, variant: string) {
    && Fits(fs, p, major, variant)
    && forall q: nat :: Fits(fs, q, major, variant) ==>
         && LexLeq(fs[q].content.value.builtAt, fs[p].content.value.builtAt)
         && (q < p ==> fs[q].content.value.builtAt != fs[p].content.value.builtAt)
  }

  /** Of the first `n` entries none fits (`b` is `None`), or `p` is the first of
      the freshest that do and `b` its image. */
  ghost predicate BestSoFar(fs: seq<File>, n: nat, p: nat, b: Option<Info>, major: string, variant: string) {
    && (b.None? ==> forall q: nat :: q < n ==> !Fits(fs, q, major, variant))
    && (b.Some? ==>
          && p < n && Fits(fs, p, major, variant) && b.value == Info(fs[p].dir, fs[p].stem, fs[p].content.value)
          && forall q: nat :: q < n && Fits(fs, q, major, variant) ==>
               && LexLeq(fs[q].content.value.builtAt, fs[p].content.value.builtAt)
               && (q < p ==> fs[q].content.value.builtAt != fs[p].content.value.builtAt))
  }

  /** `Best` picks the freshest fitting entry of the first `n`. */
  lemma {:induction false} BestIsListedFirst(fs: seq<File>, n: nat, major: string, variant: string) returns (p: nat)
    requires n <= |fs|
    ensures BestSoFar(fs, n, p, Best(InfosFrom(fs[..n], fs), (major, variant)), major, variant)
  {
    p := 0;
    if n > 0 {
      assert fs[..n][..n - 1] == fs[..n - 1];
      p := BestIsListedFirst(fs, n - 1, major, variant);
      p := OneEntryMore(fs, n - 1, p, InfosFrom(fs[..n - 1], fs), InfosFrom(fs[..n], fs), major, variant);
    }
  }

  lemma OneEntryMore(fs: seq<File>, n: nat, p: nat, before: seq<Info>, infos: seq<Info>, major: string, variant: string)
    returns (p': nat)
    requires n < |fs| && BestSoFar(fs, n, p, Best(before, (major, variant)), major, variant)
    requires infos == before + if CompleteAt(fs, n) then [Info(fs[n].dir, fs[n].stem, fs[n].content.value)] else []
    ensures BestSoFar(fs, n + 1, p', Best(infos, (major, variant)), major, variant)
  {
    p' := p;
    var b := Best(before, (major, variant));
    if CompleteAt(fs, n) {
      var i := Info(fs[n].dir, fs[n].stem, fs[n].content.value);
      assert infos[..|infos| - 1] == before && infos[|infos| - 1] == i;
      if Fits(fs, n, major, variant) && !(b.Some? && LexLeq(i.identity.builtAt, b.value.identity.builtAt)) {
        Overtakes(fs, n, p, b.Some?, major, variant);
        p' := n;
      }
    } else {
      assert infos == before;
    }
  }

  /** What is later than the freshest so far is later than all so far. */
  lemma Overtakes(fs: seq<File>, n: nat, p: nat, any: bool, major: string, variant: string)
    requires Fits(fs, n, major, variant)
    requires any ==> p < n && Fits(fs, p, major, variant) && !LexLeq(fs[n].content.value.builtAt, fs[p].content.value.builtAt)
    requires any ==> forall q: nat :: q < n && Fits(fs, q, major, variant) ==>
                       LexLeq(fs[q].content.value.builtAt, fs[p].content.value.builtAt)
    requires !any ==> forall q: nat :: q < n ==> !Fits(fs, q, major, variant)
    ensures forall q: nat :: q <= n && Fits(fs, q, major, variant) ==>
              && LexLeq(fs[q].content.value.builtAt, fs[n].content.value.builtAt)
              && (q < n ==> fs[q].content.value.builtAt != fs[n].content.value.builtAt)
  {
    var mine := fs[n].content.value.builtAt;
    LexTotal(mine, mine);
    forall q: nat | q < n && Fits(fs, q, major, variant)
      ensures LexLeq(fs[q].content.value.builtAt, mine) && fs[q].content.value.builtAt != mine
    {
      var best := fs[p].content.value.builtAt;
      LexTotal(mine, best);
      LexTransitive(fs[q].content.value.builtAt, best, mine);
    }
  }

  /** `list_matching` and `resolve`: nothing exactly when no complete image fits;
      otherwise the place of the freshest one, the first listed among equals. */
  method ResolveImage(fs: seq<File>, major: string, variant: string) returns (r: Option<(string, string)>)
    ensures r == Resolve(fs, major, variant)
    ensures r.None? <==> forall q: nat :: !Fits(fs, q, major, variant)
    ensures r.Some? ==> exists p: nat :: Freshest(fs, p, major, variant) && r.value == (fs[p].dir, fs[p].stem)
  {
    ghost var p := BestIsListedFirst(fs, |fs|, major, variant);
    assert fs[..|fs|] == fs;
    ghost var best := Best(Infos(fs), (major, variant));
    assert best.Some? ==> Freshest(fs, p, major, variant);
    var infos := CollectImages(fs);
    var found := [];
    for k := 0 to |infos|
      invariant found == InGroup(infos[..k], (major, variant))
    {
      assert infos[..k + 1][..k] == infos[..k];
      if infos[k].identity.major == major && infos[k].identity.variant == variant {
        found := found + [infos[k]];
      }
    }
    assert infos[..|infos|] == infos;
    found := Sort(found, NewestFirst);
    SortHeadIsBest(infos, (major, variant));
    return if found == [] then None else Some((found[0].dir, found[0].stem));
  }

  // ----- gc_candidates -----

  datatype Removal = Removal(image: Option<(string, string)>, manifest: Option<(string, string)>, reason: string)

  const ORPHAN_MANIFEST := "orphan manifest (no matching qcow2)"
  const ORPHAN_IMAGE := "orphan qcow2 (no manifest)"

  function Lower(s: string): string {
    if s == [] then []
    else [if 'A' <= s[0] <= 'Z' then (s[0] as int + 32) as char else s[0]] + Lower(s[1..])
  }

  /** `BaseImageInfo::id`. */
  function Id(i: Identity): string { "android" + i.major + "-" + Lower(i.variant) + "-" + i.builtAt }

  function StaleRemoval(i: Info): Removal { Removal(Some((i.dir, i.stem)), Some((i.dir, i.stem)), Id(i.identity)) }

  function OrphanRemoval(f: File): Removal {
    if f.Manifest? then Removal(None, Some((f.dir, f.stem)), ORPHAN_MANIFEST)
    else Removal(Some((f.dir, f.stem)), None, ORPHAN_IMAGE)
  }

  /** What belongs in the answer: both files of every complete image that is not
      its group's best, and every orphan on its own. */
  ghost predicate Wanted(fs: seq<File>, r: Removal) {
    || (exists i :: i in Infos(fs) && Best(Infos(fs), GroupOf(i)) != Some(i) && r == StaleRemoval(i))
    || (exists f :: Orphan(fs, f) && r == OrphanRemoval(f))
  }

  function ByLabel(a: Removal, b: Removal): bool { LexLeq(a.reason, b.reason) }

  lemma ByLabelTotal()
    ensures TotalPreorder(ByLabel)
  {
    forall a: Removal, b: Removal ensures ByLabel(a, b) || ByLabel(b, a) { LexTotal(a.reason, b.reason); }
    forall a: Removal, b: Removal, c: Removal | ByLabel(a, b) && ByLabel(b, c) ensures ByLabel(a, c) {
      LexTransitive(a.reason, b.reason, c.reason);
    }
  }

  /** Groups as the code's map holds them: complete images in listing order. */
  method GroupInfos(infos: seq<Info>) returns (groups: map<Group, seq<Info>>)
    ensures groups.Keys == AllGroups(infos)
    ensures forall g :: g in groups ==> groups[g] == InGroup(infos, g) != []
  {
    groups := map[];
    for k := 0 to |infos|
      invariant forall g :: g in groups <==> exists i :: i in infos[..k] && GroupOf(i) == g
      invariant forall g :: g in groups ==> groups[g] == InGroup(infos[..k], g)
      invariant forall g :: g !in groups ==> InGroup(infos[..k], g) == []
    {
      var g := GroupOf(infos[k]);
      assert infos[..k + 1][..k] == infos[..k];
      assert infos[..k + 1] == infos[..k] + [infos[k]];
      groups := groups[g := (if g in groups then groups[g] else []) + [infos[k]]];
    }
    assert infos[..|infos|] == infos;
    GroupsAre(infos, groups);
  }

  lemma {:induction false} InGroupMembers(infos: seq<Info>, g: Group, i: Info)
    ensures i in InGroup(infos, g) <==> i in infos && GroupOf(i) == g
  {
    if infos != [] {
      InGroupMembers(infos[..|infos| - 1], g, i);
      assert infos == infos[..|infos| - 1] + [infos[|infos| - 1]];
    }
  }

  lemma {:induction false} InGroupNoRepeats(infos: seq<Info>, g: Group)
    requires NoRepeats(infos)
    ensures NoRepeats(InGroup(infos, g))
  {
    if infos != [] {
      var n := |infos| - 1;
      InGroupNoRepeats(infos[..n], g);
      InGroupMembers(infos[..n], g, infos[n]);
      LastIsNew(infos);
    }
  }

  lemma {:induction false} InfosNoRepeats(part: seq<File>, all: seq<File>)
    requires Listing(part)
    ensures NoRepeats(InfosFrom(part, all))
  {
    if part != [] {
      var n := |part| - 1;
      InfosNoRepeats(part[..n], all);
      var f := part[n];
      if f.Manifest? && f.content.Some? {
        InfosFromMembers(part[..n], all, Info(f.dir, f.stem, f.content.value));
        LastIsNew(part);
      }
    }
  }

  /** Sorting a group newest first puts its best image in front and exactly the
      stale ones behind it. */
  lemma TailIsStale(infos: seq<Info>, g: Group, i: Info)
    requires NoRepeats(infos) && InGroup(infos, g) != []
    ensures i in Sort(InGroup(infos, g), NewestFirst)[1..]
       <==> i in infos && GroupOf(i) == g && Best(infos, g) != Some(i)
  {
    SortHeadIsBest(infos, g);
    InGroupMembers(infos, g, i);
    InGroupNoRepeats(infos, g);
    SortedOnce(InGroup(infos, g), i);
  }

  /** A sorted sequence without repetitions: its tail is all but its head. */
  lemma SortedOnce(group: seq<Info>, i: Info)
    requires NoRepeats(group) && group != []
    ensures var sorted := Sort(group, NewestFirst);
            && NoRepeats(sorted) && (i in sorted[1..] <==> i in group && i != sorted[0])
  {
    var sorted := Sort(group, NewestFirst);
    SortKeepsNoRepeats(group, NewestFirst);
    SortPermutes(group, NewestFirst);
    SameMembers(sorted, group);
    assert sorted == [sorted[0]] + sorted[1..];
  }

  /** No two complete images lie at one place. */
  ghost predicate DistinctPlaces(infos: seq<Info>) {
    forall i, j :: 0 <= i < j < |infos| ==> !(infos[i].dir == infos[j].dir && infos[i].stem == infos[j].stem)
  }

  lemma OnePerPlace(infos: seq<Info>, i: Info, j: Info)
    requires DistinctPlaces(infos) && i in infos && j in infos && i.dir == j.dir && i.stem == j.stem
    ensures i == j
  {
    var a :| 0 <= a < |infos| && infos[a] == i;
    var b :| 0 <= b < |infos| && infos[b] == j;
  }

  ghost predicate RemovalOf(infos: seq<Info>, r: Removal) {
    exists i :: i in infos && r == StaleRemoval(i)
  }

  function AllGroups(infos: seq<Info>): set<Group> { set i | i in infos :: GroupOf(i) }

  /** `r` removes a stale image of one of the groups. */
  ghost predicate StaleOf(infos: seq<Info>, groups: set<Group>, r: Removal) {
    exists i :: i in infos && GroupOf(i) in groups && Best(infos, GroupOf(i)) != Some(i) && r == StaleRemoval(i)
  }

  function RemovalsFor(infos: seq<Info>): seq<Removal> {
    if infos == [] then [] else RemovalsFor(infos[..|infos| - 1]) + [StaleRemoval(infos[|infos| - 1])]
  }

  /** The removals of some groups, one group after the other. */
  function StaleList(infos: seq<Info>, order: seq<Group>): seq<Removal> {
    if order == [] then []
    else
      var group := Sort(InGroup(infos, order[|order| - 1]), NewestFirst);
      StaleList(infos, order[..|order| - 1]) + RemovalsFor(if group == [] then [] else group[1..])
  }

  /** The groups as the map hands them out, each sorted newest first: the first
      image is kept, the rest is removed. */
  method StaleRemovals(infos: seq<Info>, groups: map<Group, seq<Info>>) returns (removals: seq<Removal>, ghost order: seq<Group>)
    requires forall g :: g in groups ==> groups[g] == InGroup(infos, g) != []
    ensures removals == StaleList(infos, order)
    ensures NoRepeats(order) && forall g :: g in order <==> g in groups
  {
    removals, order := [], [];
    var todo := groups.Keys;
    while todo != {}
      invariant removals == StaleList(infos, order) && NoRepeats(order)
      invariant todo <= groups.Keys && forall g :: g in order <==> g in groups.Keys - todo
      decreases |todo|
    {
      var g :| g in todo;
      assert (order + [g])[..|order|] == order;
      NoRepeatsPush(order, g);
      var sorted := Sort(groups[g], NewestFirst);
      removals := PushStale(removals, sorted[1..]);
      todo, order := todo - {g}, order + [g];
    }
  }

  method PushStale(removals: seq<Removal>, infos: seq<Info>) returns (out: seq<Removal>)
    ensures out == removals + RemovalsFor(infos)
  {
    out := removals;
    for k := 0 to |infos|
      invariant out == removals + RemovalsFor(infos[..k])
    {
      assert infos[..k + 1][..k] == infos[..k];
      out := out + [StaleRemoval(infos[k])];
    }
    assert infos[..|infos|] == infos;
  }

  /** Whatever the order of the groups: exactly the stale images, each once. */
  lemma {:induction false} StaleListIs(infos: seq<Info>, order: seq<Group>, done: set<Group>)
    requires DistinctPlaces(infos) && NoRepeats(order)
    requires forall g :: g in order <==> g in done
    requires forall g :: g in order ==> InGroup(infos, g) != []
    ensures NoRepeats(StaleList(infos, order))
    ensures forall r :: r in StaleList(infos, order) <==> StaleOf(infos, done, r)
  {
    if order == [] {
      assert done == {};
    } else {
      var n := |order| - 1;
      var g, rest := order[n], done - {order[n]};
      LastIsNew(order);
      assert order == order[..n] + [g];
      StaleListIs(infos, order[..n], rest);
      OneGroupMore(infos, g, rest, StaleList(infos, order[..n]));
      assert rest + {g} == done;
    }
  }

  lemma OneGroupMore(infos: seq<Info>, g: Group, done: set<Group>, removals: seq<Removal>)
    requires DistinctPlaces(infos) && InGroup(infos, g) != [] && g !in done
    requires NoRepeats(removals) && forall r :: r in removals <==> StaleOf(infos, done, r)
    ensures var out := removals + RemovalsFor(Sort(InGroup(infos, g), NewestFirst)[1..]);
            NoRepeats(out) && forall r :: r in out <==> StaleOf(infos, done + {g}, r)
  {
    var tail := Sort(InGroup(infos, g), NewestFirst)[1..];
    PlacesDiffer(infos);
    GroupsApart(infos, g, done, removals);
    RemovalsForMembers(tail);
    NoRepeatsConcat(removals, RemovalsFor(tail));
    forall r ensures r in removals + RemovalsFor(tail) <==> StaleOf(infos, done + {g}, r) {
      GroupStep(infos, g, done, done + {g}, r);
    }
  }

  lemma {:induction false} RemovalsForMembers(infos: seq<Info>)
    ensures forall r :: r in RemovalsFor(infos) <==> RemovalOf(infos, r)
    ensures DistinctPlaces(infos) ==> NoRepeats(RemovalsFor(infos))
  {
    if infos != [] {
      var n := |infos| - 1;
      RemovalsForMembers(infos[..n]);
      assert infos == infos[..n] + [infos[n]];
      if DistinctPlaces(infos) {
        NewRemoval(infos, n);
        NoRepeatsPush(RemovalsFor(infos[..n]), StaleRemoval(infos[n]));
      }
    }
  }

  lemma GroupsAre(infos: seq<Info>, groups: map<Group, seq<Info>>)
    requires forall g :: g in groups <==> exists i :: i in infos && GroupOf(i) == g
    ensures groups.Keys == AllGroups(infos)
    ensures forall g :: g in groups ==> InGroup(infos, g) != []
  {
    forall g | g in groups ensures InGroup(infos, g) != [] {
      var i :| i in infos && GroupOf(i) == g;
      InGroupMembers(infos, g, i);
    }
    forall g ensures g in groups.Keys <==> g in AllGroups(infos) {}
  }

  lemma GroupsNotEmpty(infos: seq<Info>)
    ensures forall g :: g in AllGroups(infos) ==> InGroup(infos, g) != []
  {
    forall g | g in AllGroups(infos) ensures InGroup(infos, g) != [] {
      var i :| i in infos && GroupOf(i) == g;
      InGroupMembers(infos, g, i);
    }
  }

  lemma PlacesDiffer(infos: seq<Info>)
    requires DistinctPlaces(infos)
    ensures NoRepeats(infos)
  {}

  /** Removals of one group are new, and each place occurs once among them. */
  lemma GroupsApart(infos: seq<Info>, g: Group, done: set<Group>, removals: seq<Removal>)
    requires DistinctPlaces(infos) && InGroup(infos, g) != [] && g !in done
    requires forall r :: r in removals ==> StaleOf(infos, done, r)
    ensures var tail := Sort(InGroup(infos, g), NewestFirst)[1..];
            DistinctPlaces(tail) && forall r :: r in removals ==> !RemovalOf(tail, r)
  {
    var sorted := Sort(InGroup(infos, g), NewestFirst);
    var tail := sorted[1..];
    PlacesDiffer(infos);
    InGroupNoRepeats(infos, g);
    SortKeepsNoRepeats(InGroup(infos, g), NewestFirst);
    forall i | i in tail ensures i in infos && GroupOf(i) == g { TailIsStale(infos, g, i); }
    forall a, b | 0 <= a < b < |tail| ensures !(tail[a].dir == tail[b].dir && tail[a].stem == tail[b].stem) {
      assert tail[a] == sorted[a + 1] && tail[b] == sorted[b + 1] && tail[a] in tail && tail[b] in tail;
      if tail[a].dir == tail[b].dir && tail[a].stem == tail[b].stem { OnePerPlace(infos, tail[a], tail[b]); }
    }
    forall r | r in removals ensures !RemovalOf(tail, r) { OldRemoval(infos, g, done, tail, r); }
  }

  lemma OldRemoval(infos: seq<Info>, g: Group, done: set<Group>, tail: seq<Info>, r: Removal)
    requires DistinctPlaces(infos) && g !in done && StaleOf(infos, done, r)
    requires forall i :: i in tail ==> i in infos && GroupOf(i) == g
    ensures !RemovalOf(tail, r)
  {
    var i :| i in infos && GroupOf(i) in done && Best(infos, GroupOf(i)) != Some(i) && r == StaleRemoval(i);
    forall j | j in tail ensures r != StaleRemoval(j) {
      if i.dir == j.dir && i.stem == j.stem { OnePerPlace(infos, i, j); }
    }
  }

  lemma GroupStep(infos: seq<Info>, g: Group, done: set<Group>, more: set<Group>, r: Removal)
    requires NoRepeats(infos) && more == done + {g}
    ensures InGroup(infos, g) != [] ==>
      (StaleOf(infos, more, r) <==> StaleOf(infos, done, r) || RemovalOf(Sort(InGroup(infos, g), NewestFirst)[1..], r))
  {
    if InGroup(infos, g) != [] {
      forall i ensures i in Sort(InGroup(infos, g), NewestFirst)[1..] <==> i in infos && GroupOf(i) == g && Best(infos, g) != Some(i) {
        TailIsStale(infos, g, i);
      }
    }
  }

  lemma NewRemoval(infos: seq<Info>, k: nat)
    requires DistinctPlaces(infos) && k < |infos|
    ensures RemovalOf(infos, StaleRemoval(infos[k])) && !RemovalOf(infos[..k], StaleRemoval(infos[k]))
  {
    assert infos[k] in infos;
    forall i | i in infos[..k] ensures StaleRemoval(i) != StaleRemoval(infos[k]) {
      var m :| 0 <= m < k && infos[..k][m] == i;
      assert infos[m] == i && i in infos;
    }
  }

  /** `r` removes a file with no namesake among `others`. */
  ghost predicate LonelyOf(files: seq<File>, others: seq<File>, r: Removal) {
    exists f :: f in files && (forall c :: c in others ==> c.stem != f.stem) && r == OrphanRemoval(f)
  }

  /** The two orphan passes: names first, then the files without one. */
  method OrphanRemovals(files: seq<File>, others: seq<File>) returns (removals: seq<Removal>)
    requires Listing(files)
    ensures NoRepeats(removals)
    ensures forall r :: r in removals <==> LonelyOf(files, others, r)
  {
    var names: set<string> := {};
    for k := 0 to |others|
      invariant forall n :: n in names <==> exists c :: c in others[..k] && c.stem == n
    {
      assert others[..k + 1] == others[..k] + [others[k]];
      names := names + {others[k].stem};
    }
    assert others[..|others|] == others;
    removals := [];
    for k := 0 to |files|
      invariant NoRepeats(removals)
      invariant forall r :: r in removals <==> exists f :: f in files[..k] && f.stem !in names && r == OrphanRemoval(f)
    {
      OrphansApart(files, k);
      assert files[..k + 1] == files[..k] + [files[k]];
      if files[k].stem !in names {
        NoRepeatsPush(removals, OrphanRemoval(files[k]));
        removals := removals + [OrphanRemoval(files[k])];
      }
    }
    assert files[..|files|] == files;
  }

  lemma OrphansApart(files: seq<File>, k: nat)
    requires Listing(files) && k < |files|
    ensures forall f :: f in files[..k] ==> OrphanRemoval(f) != OrphanRemoval(files[k])
  {
    forall f | f in files[..k] ensures OrphanRemoval(f) != OrphanRemoval(files[k]) {
      var m :| 0 <= m < k && files[..k][m] == f;
      assert files[m] == f;
    }
  }

  lemma {:induction false} OnlyIsListing(fs: seq<File>, manifests: bool)
    requires Listing(fs)
    ensures Listing(Only(fs, manifests))
  {
    if fs != [] {
      var n := |fs| - 1;
      OnlyIsListing(fs[..n], manifests);
      forall f | f in Only(fs[..n], manifests)
        ensures !(f.dir == fs[n].dir && f.stem == fs[n].stem && f.Manifest? == fs[n].Manifest?)
      {
        OnlyMembers(fs[..n], manifests, f);
        var m :| 0 <= m < n && fs[..n][m] == f;
        assert fs[m] == f;
      }
    }
  }

  lemma ListedPlaces(fs: seq<File>)
    requires Listing(fs)
    ensures DistinctPlaces(Infos(fs))
  {
    InfosNoRepeats(fs, fs);
    var infos := Infos(fs);
    forall i, j | 0 <= i < j < |infos| ensures !(infos[i].dir == infos[j].dir && infos[i].stem == infos[j].stem) {
      if infos[i].dir == infos[j].dir && infos[i].stem == infos[j].stem { OneInfoPerPlace(fs, infos[i], infos[j]); }
    }
  }

  /** `gc_candidates`: the wanted removals, each once, and no others, ordered by
      label; the answer is empty exactly when there is nothing to remove. */
  method GcCandidates(root: Root) returns (r: Result<seq<Removal>, CacheError>)
    requires Listing(FilesOf(root))
    ensures r.Err? <==> root.Unreadable?
    ensures r.Ok? ==> SortedBy(r.value, ByLabel) && NoRepeats(r.value)
    ensures r.Ok? ==> forall i, j :: 0 <= i < j < |r.value| ==> LexLeq(r.value[i].reason, r.value[j].reason)
    ensures r.Ok? ==> forall x :: x in r.value <==> Wanted(FilesOf(root), x)
    ensures r.Ok? ==> forall x :: x in r.value <==>
              exists p: nat :: GoesAsStale(FilesOf(root), p, x) || GoesAsOrphan(FilesOf(root), p, x)
    ensures r.Ok? ==> (r.value == [] <==> NothingToRemove(FilesOf(root)))
  {
    var collected := CollectCacheFiles(root);
    if collected.Err? { return Err(collected.error); }
    var (manifests, images) := collected.value;
    var infos := CollectImages(FilesOf(root));
    ListedPlaces(FilesOf(root));
    OnlyIsListing(FilesOf(root), true);
    OnlyIsListing(FilesOf(root), false);
    var groups := GroupInfos(infos);
    var stale, order := StaleRemovals(infos, groups);
    GroupsNotEmpty(infos);
    StaleListIs(infos, order, AllGroups(infos));
    var lonelyManifests := OrphanRemovals(manifests, images);
    var lonelyImages := OrphanRemovals(images, manifests);
    var all := stale + lonelyManifests + lonelyImages;
    AllApart(FilesOf(root), stale, lonelyManifests, lonelyImages);
    SortedByLabel(all);
    AllWanted(FilesOf(root), all);
    SortKeepsNoRepeats(all, ByLabel);
    NothingWantedIff(FilesOf(root));
    r := Ok(Sort(all, ByLabel));
    EmptyIff(r.value, FilesOf(root));
  }

  lemma EmptyIff(answer: seq<Removal>, fs: seq<File>)
    requires forall x :: x in answer <==> Wanted(fs, x)
    ensures answer == [] <==> forall x :: !Wanted(fs, x)
  {
    if answer != [] { assert answer[0] in answer; }
  }

  lemma LonelyKind(fs: seq<File>, manifests: bool, r: Removal)
    requires LonelyOf(Only(fs, manifests), Only(fs, !manifests), r)
    ensures if manifests then r.image.None? && r.manifest.Some? else r.image.Some? && r.manifest.None?
  {
    var f :| f in Only(fs, manifests) && (forall c :: c in Only(fs, !manifests) ==> c.stem != f.stem) && r == OrphanRemoval(f);
    OnlyMembers(fs, manifests, f);
  }

  /** The three kinds of removals never coincide. */
  lemma AllApart(fs: seq<File>, stale: seq<Removal>, manifests: seq<Removal>, images: seq<Removal>)
    requires NoRepeats(stale) && NoRepeats(manifests) && NoRepeats(images)
    requires forall r :: r in stale ==> StaleOf(Infos(fs), AllGroups(Infos(fs)), r)
    requires forall r :: r in manifests ==> LonelyOf(Only(fs, true), Only(fs, false), r)
    requires forall r :: r in images ==> LonelyOf(Only(fs, false), Only(fs, true), r)
    ensures NoRepeats(stale + manifests + images)
  {
    forall r | r in stale ensures r.image.Some? && r.manifest.Some? {}
    forall r | r in manifests ensures r.image.None? { LonelyKind(fs, true, r); }
    forall r | r in images ensures r.manifest.None? && r.image.Some? { LonelyKind(fs, false, r); }
    NoRepeatsConcat(stale, manifests);
    NoRepeatsConcat(stale + manifests, images);
  }

  lemma SortedByLabel(all: seq<Removal>)
    ensures SortedBy(Sort(all, ByLabel), ByLabel)
    ensures var r := Sort(all, ByLabel); forall i, j :: 0 <= i < j < |r| ==> LexLeq(r[i].reason, r[j].reason)
    ensures forall x :: x in Sort(all, ByLabel) <==> x in all
  {
    ByLabelTotal();
    SortSorts(all, ByLabel);
    SortPermutes(all, ByLabel);
    SameMembers(Sort(all, ByLabel), all);
    var r := Sort(all, ByLabel);
    forall i, j | 0 <= i < j < |r| ensures LexLeq(r[i].reason, r[j].reason) { assert ByLabel(r[i], r[j]); }
  }

  /** The three kinds together are the wanted removals. */
  lemma {:induction false} AllWanted(fs: seq<File>, all: seq<Removal>)
    requires Listing(fs)
    requires forall r :: r in all <==>
      StaleOf(Infos(fs), AllGroups(Infos(fs)), r) || LonelyOf(Only(fs, true), Only(fs, false), r) || LonelyOf(Only(fs, false), Only(fs, true), r)
    ensures forall x :: x in all <==> Wanted(fs, x)
    ensures forall x :: Wanted(fs, x) <==> exists p: nat :: GoesAsStale(fs, p, x) || GoesAsOrphan(fs, p, x)
  {
    forall x: Removal ensures x in all <==> Wanted(fs, x) { WantedSplits(fs, x); }
    forall x: Removal ensures Wanted(fs, x) <==> exists p: nat :: GoesAsStale(fs, p, x) || GoesAsOrphan(fs, p, x) {
      WantedIff(fs, x);
    }
  }

  lemma WantedSplits(fs: seq<File>, x: Removal)
    ensures Wanted(fs, x) <==>
      || StaleOf(Infos(fs), AllGroups(Infos(fs)), x)
      || LonelyOf(Only(fs, true), Only(fs, false), x)
      || LonelyOf(Only(fs, false), Only(fs, true), x)
  {
    OrphansAreThese(fs, x);
  }

  lemma OrphansAreThese(fs: seq<File>, x: Removal)
    ensures (exists f :: Orphan(fs, f) && x == OrphanRemoval(f))
       <==> LonelyOf(Only(fs, true), Only(fs, false), x) || LonelyOf(Only(fs, false), Only(fs, true), x)
  {
    var ms, qs := Only(fs, true), Only(fs, false);
    forall f ensures f in ms <==> f in fs && f.Manifest? { OnlyMembers(fs, true, f); }
    forall f ensures f in qs <==> f in fs && !f.Manifest? { OnlyMembers(fs, false, f); }
    forall f | f in fs
      ensures Orphan(fs, f) <==> forall c :: c in (if f.Manifest? then qs else ms) ==> c.stem != f.stem
    {
      forall c | c in fs ensures Counterparts(f, c) <==> c.stem == f.stem && c in (if f.Manifest? then qs else ms) {}
    }
  }

  /** Entry `p` is a complete image that is not the freshest of its version and
      variant; both its files go. */
  ghost predicate GoesAsStale(fs: seq<File>, p: nat, r: Removal) {
    && CompleteAt(fs, p)
    && var (place, i) := ((fs[p].dir, fs[p].stem), fs[p].content.value);
       && !Freshest(fs, p, i.major, i.variant)
       && r == Removal(Some(place), Some(place), "android" + i.major + "-" + Lower(i.variant) + "-" + i.builtAt)
  }

  /** Entry `p` is a file whose stem no file of the other kind has, in whatever
      directory; it goes alone. */
  ghost predicate GoesAsOrphan(fs: seq<File>, p: nat, r: Removal) {
    && p < |fs|
    && (forall q :: 0 <= q < |fs| && fs[q].stem == fs[p].stem ==> fs[q].Manifest? == fs[p].Manifest?)
    && r == if fs[p].Manifest? then Removal(None, Some((fs[p].dir, fs[p].stem)), "orphan manifest (no matching qcow2)")
            else Removal(Some((fs[p].dir, fs[p].stem)), None, "orphan qcow2 (no manifest)")
  }

  /** The wanted removals, entry by entry of the listing. */
  lemma {:induction false} WantedIff(fs: seq<File>, r: Removal)
    requires Listing(fs)
    ensures Wanted(fs, r) <==> exists p: nat :: GoesAsStale(fs, p, r) || GoesAsOrphan(fs, p, r)
  {
    StaleEntries(fs, r);
    OrphanEntries(fs, r);
  }

  lemma {:induction false} StaleEntries(fs: seq<File>, r: Removal)
    requires Listing(fs)
    ensures (exists i :: i in Infos(fs) && Best(Infos(fs), GroupOf(i)) != Some(i) && r == StaleRemoval(i))
       <==> exists p: nat :: GoesAsStale(fs, p, r)
  {
    if i :| i in Infos(fs) && Best(Infos(fs), GroupOf(i)) != Some(i) && r == StaleRemoval(i) {
      InfosMembers(fs, i);
      var p: nat :| p < |fs| && fs[p] == Manifest(i.dir, i.stem, Some(i.identity));
      BestIsFreshestAt(fs, p);
      assert GoesAsStale(fs, p, r);
    }
    if p: nat :| GoesAsStale(fs, p, r) {
      var i := Info(fs[p].dir, fs[p].stem, fs[p].content.value);
      assert fs[p] == Manifest(i.dir, i.stem, Some(i.identity));
      InfosMembers(fs, i);
      BestIsFreshestAt(fs, p);
      assert i in Infos(fs) && r == StaleRemoval(i);
    }
  }

  lemma {:induction false} BestIsFreshestAt(fs: seq<File>, p: nat)
    requires Listing(fs) && CompleteAt(fs, p)
    ensures var i := Info(fs[p].dir, fs[p].stem, fs[p].content.value);
            Best(Infos(fs), GroupOf(i)) == Some(i) <==> Freshest(fs, p, i.identity.major, i.identity.variant)
  {
    var c := fs[p].content.value;
    var q := BestIsListedFirst(fs, |fs|, c.major, c.variant);
    assert fs[..|fs|] == fs;
    if Freshest(fs, p, c.major, c.variant) && p != q {
      LexAntisymmetric(c.builtAt, fs[q].content.value.builtAt);
    }
  }

  lemma {:induction false} OrphanEntries(fs: seq<File>, r: Removal)
    ensures (exists f :: Orphan(fs, f) && r == OrphanRemoval(f)) <==> exists p: nat :: GoesAsOrphan(fs, p, r)
  {
    if f :| Orphan(fs, f) && r == OrphanRemoval(f) {
      var p: nat :| p < |fs| && fs[p] == f;
      forall q | 0 <= q < |fs| && fs[q].stem == fs[p].stem ensures fs[q].Manifest? == fs[p].Manifest? {
        assert fs[q] in fs && !Counterparts(f, fs[q]);
      }
      assert GoesAsOrphan(fs, p, r);
    }
    if p: nat :| GoesAsOrphan(fs, p, r) {
      assert Orphan(fs, fs[p]) && r == OrphanRemoval(fs[p]);
    }
  }

  /** A file is to be kept exactly when no wanted removal names it. */
  lemma WantedIsNotKept(fs: seq<File>, f: File)
    requires Listing(fs) && f in fs
    ensures !Keep(fs, f) <==>
      exists r :: Wanted(fs, r) && (if f.Manifest? then r.manifest else r.image) == Some((f.dir, f.stem))
  {
    if Stale(fs, f.dir, f.stem) {
      var i :| i in Infos(fs) && i.dir == f.dir && i.stem == f.stem && Best(Infos(fs), GroupOf(i)) != Some(i);
      assert Wanted(fs, StaleRemoval(i));
    } else if !HasCounterpart(fs, f) {
      assert Wanted(fs, OrphanRemoval(f));
    } else {
      forall r | Wanted(fs, r) && (if f.Manifest? then r.manifest else r.image) == Some((f.dir, f.stem)) ensures false {
        if o :| Orphan(fs, o) && r == OrphanRemoval(o) {
          SameListing(fs, o, f);
        }
      }
    }
  }

  /** Nothing is wanted exactly when every file is kept. */
  lemma NothingWantedIff(fs: seq<File>)
    requires Listing(fs)
    ensures NothingToRemove(fs) <==> forall r :: !Wanted(fs, r)
  {
    if r :| Wanted(fs, r) {
      var f := WantedNamesAFile(fs, r);
      WantedIsNotKept(fs, f);
    } else {
      forall f | f in fs ensures Keep(fs, f) { WantedIsNotKept(fs, f); }
    }
  }

  lemma WantedNamesAFile(fs: seq<File>, r: Removal) returns (f: File)
    requires Wanted(fs, r)
    ensures f in fs && (if f.Manifest? then r.manifest else r.image) == Some((f.dir, f.stem))
  {
    if i :| i in Infos(fs) && Best(Infos(fs), GroupOf(i)) != Some(i) && r == StaleRemoval(i) {
      InfosMembers(fs, i);
      f := Image(i.dir, i.stem);
    } else {
      f :| Orphan(fs, f) && r == OrphanRemoval(f);
    }
  }
}
