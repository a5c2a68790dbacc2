/** The fate of every frame of a distributed group: capture, the server's share, the cluster's share, the
    fallbacks, and the final check of every output on disk.
    What native code and the cluster do is an input, recorded in `World`: which files an execution added,
    and whether it threw. The disk is the set of existing paths. */
module FrameFate {
  import opened Wrappers

  // ---- paths ----

  function AfterSlash(path: string): string {
    if path == [] || path[|path| - 1] == '/' then [] else AfterSlash(path[..|path| - 1]) + [path[|path| - 1]]
  }

  /** Everything before the last dot of the last component, or the whole. */
  function BeforeDot(name: string, whole: string): string {
    if name == [] || name[|name| - 1] == '/' then whole
    else if name[|name| - 1] == '.' then name[..|name| - 1]
    else BeforeDot(name[..|name| - 1], whole)
  }

  /** The file name without directory and extension. */
  function Stem(path: string): string {
    BeforeDot(AfterSlash(path), AfterSlash(path))
  }

  function ChangeExtension(path: string, ext: string): string {
    BeforeDot(path, path) + ext
  }

  datatype Naming = Naming(outDir: string, prefix: string, postfix: string, ext: string)

  /** Where the output of a frame is expected. */
  function OutputOf(n: Naming, path: string): string {
    n.outDir + "/" + n.prefix + Stem(path) + n.postfix + n.ext
  }

  predicate IsExtension(ext: string) {
    ext != [] && ext[0] == '.' && '.' !in ext[1..] && '/' !in ext
  }

  lemma {:induction false} AfterSlashIs(dir: string, file: string)
    requires '/' !in file
    ensures AfterSlash(file) == file && AfterSlash(dir + "/" + file) == file
  {
    if file != [] {
      var front := file[..|file| - 1];
      AfterSlashIs(dir, front);
      assert (dir + "/" + file)[..|dir + "/" + file| - 1] == dir + "/" + front;
    }
  }

  lemma {:induction false} BeforeDotIs(front: string, ext: string, whole: string)
    requires IsExtension(ext)
    ensures BeforeDot(front + ext, whole) == front
  {
    var name := front + ext;
    if |ext| == 1 {
      assert name[..|name| - 1] == front;
    } else {
      var shorter := ext[..|ext| - 1];
      assert shorter[1..] == ext[1..][..|ext| - 2];
      BeforeDotIs(front, shorter, whole);
      assert name[..|name| - 1] == front + shorter;
      assert ext[1..][|ext| - 2] == ext[|ext| - 1];
    }
  }

  lemma {:induction false} NoDotKeepsWhole(name: string, whole: string)
    requires '.' !in name
    ensures BeforeDot(name, whole) == whole
  {
    if name != [] {
      NoDotKeepsWhole(name[..|name| - 1], whole);
    }
  }

  /** The name of a frame is what stands between its directory and its extension, whatever dots it holds. */
  lemma StemIsTheName(dir: string, name: string, ext: string)
    requires '/' !in name && IsExtension(ext)
    ensures Stem(dir + "/" + name + ext) == name && Stem(name + ext) == name
    ensures '.' !in name ==> Stem(dir + "/" + name) == name && Stem(name) == name
  {
    AfterSlashIs(dir, name + ext);
    assert dir + "/" + name + ext == dir + "/" + (name + ext);
    BeforeDotIs(name, ext, name + ext);
    if '.' !in name {
      AfterSlashIs(dir, name);
      NoDotKeepsWhole(name, name);
    }
  }

  /** The output of a frame lies in the output directory and carries its name between prefix and postfix. */
  lemma OutputIsAt(n: Naming, dir: string, name: string, ext: string)
    requires '/' !in name && IsExtension(ext)
    ensures OutputOf(n, dir + "/" + name + ext) == n.outDir + "/" + n.prefix + name + n.postfix + n.ext
    ensures OutputOf(n, name + ext) == n.outDir + "/" + n.prefix + name + n.postfix + n.ext
  {
    StemIsTheName(dir, name, ext);
  }

  lemma MiddleIsDetermined(front: string, a: string, b: string, back: string)
    requires front + a + back == front + b + back
    ensures a == b
  {
    var n := |front|;
    assert |front + a + back| == |front + b + back|;
    assert a == (front + a + back)[n..n + |a|];
    assert b == (front + b + back)[n..n + |b|];
  }

  /** Two frames of one group are sent to the same output exactly when their names agree, wherever they lie
      and whatever their extensions are. */
  lemma OutputsCollideIffNamesAgree(n: Naming, dir1: string, name1: string, ext1: string,
                                    dir2: string, name2: string, ext2: string)
    requires '/' !in name1 && IsExtension(ext1) && '/' !in name2 && IsExtension(ext2)
    ensures OutputOf(n, dir1 + "/" + name1 + ext1) == OutputOf(n, dir2 + "/" + name2 + ext2) <==> name1 == name2
  {
    OutputIsAt(n, dir1, name1, ext1);
    OutputIsAt(n, dir2, name2, ext2);
    var front, back := n.outDir + "/" + n.prefix, n.postfix + n.ext;
    assert n.outDir + "/" + n.prefix + name1 + n.postfix + n.ext == front + name1 + back;
    assert n.outDir + "/" + n.prefix + name2 + n.postfix + n.ext == front + name2 + back;
    if front + name1 + back == front + name2 + back {
      MiddleIsDetermined(front, name1, name2, back);
    }
  }

  // ---- the group and what happens to it ----

  /** `light` is false for flats, darks and bias; `drizzle` asks for an .xdrz file beside the output. */
  datatype Group = Group(active: seq<string>, light: bool, fastIntegration: bool, naming: Naming, drizzle: bool)

  datatype Capture = NativeThrew | NothingCaptured | OtherProcess | Captured

  datatype Execution = Execution(added: set<string>, threw: bool)

  datatype Wait = WaitThrew(landed: set<string>) | WaitReturned(landed: set<string>)

  /** `subset` is what the interrupted native run left in the group's list of files. */
  datatype World = World(subset: seq<string>, capture: Capture, serializes: bool, submits: bool,
                         serverRun: Execution, wait: Wait, fallbackRun: Execution, missingRun: Execution)

  datatype Fate = Untouched | Succeeded(output: string, drizzle: Option<string>) | Failed

  datatype Status = DONE | FAILED

  datatype Result = RanNatively | Finished(status: Status, nOK: nat, nFail: nat)

  /** The active frames with the number the server keeps. */
  datatype Plan = Plan(group: Group, kept: nat)
  {
    predicate Valid() {
      kept <= |group.active|
    }

    function Server(): seq<string>
      requires Valid()
    {
      group.active[..kept]
    }

    function Client(): seq<string>
      requires Valid()
    {
      group.active[kept..]
    }

    function Output(path: string): string {
      OutputOf(group.naming, path)
    }
  }

  // ---- specification ----

  /** The distribution goes through: nothing sends the operation back to the native run. */
  predicate GoesThrough(p: Plan, w: World)
    requires p.Valid()
  {
    && p.group.light && p.group.active != [] && !p.group.fastIntegration && w.capture == Captured && w.serializes
    && (p.Client() != [] ==> w.submits && !(w.wait.WaitThrew? && w.fallbackRun.threw))
    && (p.Server() != [] ==> !w.serverRun.threw)
  }

  /** Only groups of light frames without fast integration are distributed, and in a world where nothing goes
      wrong all of those are. */
  lemma WhatIsDistributed(p: Plan, w: World)
    requires p.Valid()
    ensures GoesThrough(p, w) ==>
              p.group.light && !p.group.fastIntegration && |p.group.active| > 0 && w.capture == Captured && w.serializes
    ensures w.capture == Captured && w.serializes && w.submits && !w.serverRun.threw && w.wait.WaitReturned? ==>
              (GoesThrough(p, w) <==> p.group.light && !p.group.fastIntegration && |p.group.active| > 0)
  {
  }

  /** The disk when the operation is sent back to its native run: what ran before stays. */
  function DiskAtFallback(p: Plan, w: World, disk: set<string>): set<string>
    requires p.Valid()
  {
    var g := p.group;
    if !g.light || g.active == [] || g.fastIntegration || w.capture != Captured || !w.serializes then disk
    else if p.Client() != [] && !w.submits then disk
    else if p.Server() != [] && w.serverRun.threw then disk + w.serverRun.added
    else DiskAfterJoin(p, w, disk)
  }

  /** The disk when the wait for the cluster is over, local fallback included. */
  function DiskAfterJoin(p: Plan, w: World, disk: set<string>): set<string>
    requires p.Valid()
  {
    var served := if p.Server() != [] then disk + w.serverRun.added else disk;
    if p.Client() == [] then served
    else if w.wait.WaitThrew? then served + w.wait.landed + w.fallbackRun.added
    else served + w.wait.landed
  }

  /** A run that is sent back takes no file away, and before anything ran it leaves the disk as it was. */
  lemma FallbackKeepsDisk(p: Plan, w: World, disk: set<string>)
    requires p.Valid()
    ensures disk <= DiskAtFallback(p, w, disk)
    ensures !p.group.light || p.group.fastIntegration || w.capture != Captured || !w.serializes ==>
              DiskAtFallback(p, w, disk) == disk
    ensures p.Client() != [] && !w.submits ==> DiskAtFallback(p, w, disk) == disk
  {
  }

  function Missing(n: Naming, paths: seq<string>, disk: set<string>): seq<string> {
    if paths == [] then []
    else
      var (rest, last) := (Missing(n, paths[..|paths| - 1], disk), paths[|paths| - 1]);
      if OutputOf(n, last) !in disk then rest + [last] else rest
  }

  lemma {:induction false} MissingIsWhatIsNotThere(n: Naming, paths: seq<string>, disk: set<string>, f: string)
    ensures f in Missing(n, paths, disk) <==> f in paths && OutputOf(n, f) !in disk
  {
    if paths != [] {
      MissingIsWhatIsNotThere(n, paths[..|paths| - 1], disk, f);
      assert paths == paths[..|paths| - 1] + [paths[|paths| - 1]];
    }
  }

  lemma {:induction false} AllMissing(n: Naming, paths: seq<string>, disk: set<string>)
    ensures |Missing(n, paths, disk)| <= |paths|
    ensures |Missing(n, paths, disk)| == |paths| <==> forall f | f in paths :: OutputOf(n, f) !in disk
  {
    if paths != [] {
      AllMissing(n, paths[..|paths| - 1], disk);
      assert paths == paths[..|paths| - 1] + [paths[|paths| - 1]];
    }
  }

  function MissingClients(p: Plan, w: World, disk: set<string>): seq<string>
    requires p.Valid()
  {
    Missing(p.group.naming, p.Client(), DiskAfterJoin(p, w, disk))
  }

  /** The disk when the frames are judged: some but not all client outputs missing means one more run. */
  function FinalDisk(p: Plan, w: World, disk: set<string>): set<string>
    requires p.Valid()
  {
    var m := MissingClients(p, w, disk);
    DiskAfterJoin(p, w, disk) + (if 0 < |m| < |p.Client()| then w.missingRun.added else {})
  }

  /** Which files are there when the frames are judged: those from before, and everything that any execution
      that took place wrote and that the cluster delivered, even if the wait threw. */
  lemma WhatIsOnDisk(p: Plan, w: World, disk: set<string>, f: string)
    requires p.Valid()
    ensures f in FinalDisk(p, w, disk) <==>
            || f in disk
            || (p.kept > 0 && f in w.serverRun.added)
            || (p.kept < |p.group.active| && f in w.wait.landed)
            || (p.kept < |p.group.active| && w.wait.WaitThrew? && f in w.fallbackRun.added)
            || (f in w.missingRun.added && SomeButNotAllMissing(p, w, disk))
  {
    var m, client := MissingClients(p, w, disk), p.Client();
    AllMissing(p.group.naming, client, DiskAfterJoin(p, w, disk));
    forall c ensures c in m <==> c in client && p.Output(c) !in DiskAfterJoin(p, w, disk) {
      MissingIsWhatIsNotThere(p.group.naming, client, DiskAfterJoin(p, w, disk), c);
    }
    assert |m| > 0 ==> m[0] in m;
  }

  /** After the join, the output of one client frame is missing and that of another is there. */
  ghost predicate SomeButNotAllMissing(p: Plan, w: World, disk: set<string>)
    requires p.Valid()
  {
    && (exists f | f in p.Client() :: p.Output(f) !in DiskAfterJoin(p, w, disk))
    && (exists f | f in p.Client() :: p.Output(f) in DiskAfterJoin(p, w, disk))
  }

  function Judge(g: Group, path: string, disk: set<string>): Fate {
    var output := OutputOf(g.naming, path);
    var xdrz := ChangeExtension(output, ".xdrz");
    if output !in disk then Failed
    else Succeeded(output, if g.drizzle && xdrz in disk then Some(xdrz) else None)
  }

  /** A frame succeeds exactly when the file is there that its own name calls for, and it gets a drizzle file
      exactly when drizzle is asked for and the .xdrz of that name lies beside it. */
  lemma JudgedByItsOwnFile(g: Group, dir: string, name: string, ext: string, disk: set<string>)
    requires '/' !in name && IsExtension(ext) && IsExtension(g.naming.ext)
    ensures var front := g.naming.outDir + "/" + g.naming.prefix + name + g.naming.postfix;
            Judge(g, dir + "/" + name + ext, disk)
            == if front + g.naming.ext !in disk then Failed
               else Succeeded(front + g.naming.ext, if g.drizzle && front + ".xdrz" in disk then Some(front + ".xdrz") else None)
  {
    OutputIsAt(g.naming, dir, name, ext);
    var front := g.naming.outDir + "/" + g.naming.prefix + name + g.naming.postfix;
    BeforeDotIs(front, g.naming.ext, front + g.naming.ext);
  }

  lemma DottedPaths()
    ensures "/in" + "/" + "a.b" + ".xisf" == "/in/a.b.xisf"
    ensures "/out" + "/" + "" + "a.b" + "_r" + ".xisf" == "/out/a.b_r.xisf"
    ensures IsExtension(".xisf") && '/' !in "a.b"
  {
  }

  function DottedGroup(): Group {
    Group(["/in/a.b.xisf"], true, false, Naming("/out", "", "_r", ".xisf"), false)
  }

  /** The frame "/in/a.b.xisf" succeeds exactly when "/out/a.b_r.xisf" is there. */
  lemma DottedFrameIsFound(disk: set<string>)
    ensures OutputOf(DottedGroup().naming, "/in/a.b.xisf") == "/out/a.b_r.xisf"
    ensures Judge(DottedGroup(), "/in/a.b.xisf", disk)
            == if "/out/a.b_r.xisf" in disk then Succeeded("/out/a.b_r.xisf", None) else Failed
  {
    DottedPaths();
    OutputIsAt(DottedGroup().naming, "/in", "a.b", ".xisf");
    JudgedByItsOwnFile(DottedGroup(), "/in", "a.b", ".xisf", disk);
  }

  function Count(fates: seq<Fate>, ok: bool): nat {
    if fates == [] then 0
    else Count(fates[..|fates| - 1], ok) + if fates[|fates| - 1].Succeeded? == ok then 1 else 0
  }

  lemma {:induction false} CountsCover(fates: seq<Fate>)
    ensures Count(fates, true) + Count(fates, false) == |fates|
    ensures Count(fates, true) == 0 <==> forall k | 0 <= k < |fates| :: !fates[k].Succeeded?
    ensures Count(fates, false) == 0 <==> forall k | 0 <= k < |fates| :: fates[k].Succeeded?
  {
    if fates != [] {
      CountsCover(fates[..|fates| - 1]);
    }
  }

  // ---- the engine ----

  class Engine {
    var disk: set<string>
    var fileItems: seq<string>
    var fates: seq<Fate>

    constructor (disk: set<string>, fileItems: seq<string>, nFrames: nat)
      ensures this.disk == disk && this.fileItems == fileItems
      ensures fates == seq(nFrames, _ => Untouched)
    {
      this.disk, this.fileItems, fates := disk, fileItems, seq(nFrames, _ => Untouched);
    }

    /** Run the native operation up to the point where it adds its process, and put its files back. */
    method CaptureProcess(w: World) returns (c: Capture)
      modifies this`fileItems
      ensures c == w.capture && fileItems == old(fileItems)
    {
      var savedItems := fileItems;
      fileItems := w.subset;
      c := w.capture;
      fileItems := savedItems;
    }

    method ExecuteGlobal(e: Execution) returns (threw: bool)
      modifies this`disk
      ensures disk == old(disk) + e.added && threw == e.threw
    {
      disk := disk + e.added;
      threw := e.threw;
    }

    /** The overall run of a wrapped operation. Whatever goes wrong before the frames are judged sends the
        operation to its native run with every frame untouched. */
    method Run(operation: Option<Plan>, w: World) returns (r: Result)
      requires operation.Some? ==> operation.value.Valid() && |operation.value.group.active| == |fates|
      modifies this
      ensures fileItems == old(fileItems)
      ensures r.RanNatively? <==> operation.None? || !GoesThrough(operation.value, w)
      ensures r.RanNatively? ==> fates == old(fates)
      ensures r.RanNatively? ==>
                disk == if operation.None? then old(disk) else DiskAtFallback(operation.value, w, old(disk))
      ensures r.Finished? ==>
                var p := operation.value;
                && disk == FinalDisk(p, w, old(disk))
                && |fates| == |p.group.active|
                && (forall k | 0 <= k < |fates| :: fates[k] == Judge(p.group, p.group.active[k], disk))
                && r.nOK == Count(fates, true) && r.nFail == Count(fates, false)
                && (r.status == FAILED <==> r.nFail > 0 && r.nOK == 0)
    {
      if operation.None? {
        return RanNatively;
      }
      var p := operation.value;
      if !p.group.light || |p.group.active| == 0 || p.group.fastIntegration {
        return RanNatively;
      }
      var captured := CaptureProcess(w);
      if captured != Captured || !w.serializes {
        return RanNatively;
      }
      var serverInputs, clientInputs := p.group.active[..p.kept], p.group.active[p.kept..];
      var handle := |clientInputs| > 0;
      if handle && !w.submits {
        return RanNatively;
      }
      if |serverInputs| > 0 {
        var threw := ExecuteGlobal(w.serverRun);
        if threw {
          return RanNatively;
        }
      }
      if handle {
        disk := disk + w.wait.landed;
        if w.wait.WaitThrew? {
          var threw := ExecuteGlobal(w.fallbackRun);
          if threw {
            return RanNatively;
          }
        }
      }
      assert disk == DiskAfterJoin(p, w, old(disk));
      RecoverMissing(p, clientInputs, w);
      r := JudgeFrames(p.group);
    }

    method RecoverMissing(p: Plan, clientInputs: seq<string>, w: World)
      requires p.Valid() && clientInputs == p.Client()
      modifies this`disk
      ensures var m := Missing(p.group.naming, clientInputs, old(disk));
              disk == old(disk) + if 0 < |m| < |clientInputs| then w.missingRun.added else {}
    {
      var missing := [];
      for k := 0 to |clientInputs|
        invariant missing == Missing(p.group.naming, clientInputs[..k], disk)
        invariant disk == old(disk)
      {
        assert clientInputs[..k + 1][..k] == clientInputs[..k];
        if OutputOf(p.group.naming, clientInputs[k]) !in disk {
          missing := missing + [clientInputs[k]];
        }
      }
      assert clientInputs[..|clientInputs|] == clientInputs;
      if |missing| > 0 && |missing| < |clientInputs| {
        var threw := ExecuteGlobal(w.missingRun);
      }
    }

    method JudgeFrames(g: Group) returns (r: Result)
      requires |g.active| == |fates|
      modifies this`fates
      ensures |fates| == |g.active| && r.Finished?
      ensures forall k | 0 <= k < |fates| :: fates[k] == Judge(g, g.active[k], disk)
      ensures r.nOK == Count(fates, true) && r.nFail == Count(fates, false)
      ensures r.status == FAILED <==> r.nFail > 0 && r.nOK == 0
    {
      var nOK, nFail := 0, 0;
      for c := 0 to |g.active|
        invariant |fates| == |g.active|
        invariant forall k | 0 <= k < c :: fates[k] == Judge(g, g.active[k], disk)
        invariant nOK == Count(fates[..c], true) && nFail == Count(fates[..c], false)
      {
        var output := OutputOf(g.naming, g.active[c]);
        ghost var before := fates;
        if output in disk {
          var xdrz := ChangeExtension(output, ".xdrz");
          fates := fates[c := Succeeded(output, if g.drizzle && xdrz in disk then Some(xdrz) else None)];
          nOK := nOK + 1;
        } else {
          fates := fates[c := Failed];
          nFail := nFail + 1;
        }
        assert fates[..c + 1][..c] == before[..c];
      }
      assert fates[..|g.active|] == fates;
      r := Finished(if nFail > 0 && nOK == 0 then FAILED else DONE, nOK, nFail);
    }
  }

  // ---- which frames succeed ----

  /** What a run that finished leaves: the final disk, and the fate of every frame. */
  ghost predicate Ends(p: Plan, w: World, disk: set<string>, fates: seq<Fate>)
    requires p.Valid()
  {
    && |fates| == |p.group.active|
    && forall k | 0 <= k < |fates| :: fates[k] == Judge(p.group, p.group.active[k], FinalDisk(p, w, disk))
  }

  /** A local execution over these rows wrote every one of their outputs. */
  predicate Yields(p: Plan, rows: seq<string>, e: Execution) {
    forall f | f in rows :: p.Output(f) in e.added
  }

  /** Every local execution that takes place yields. */
  predicate LocalRunsYield(p: Plan, w: World, disk: set<string>)
    requires p.Valid()
  {
    var missing := MissingClients(p, w, disk);
    && (p.Server() != [] ==> Yields(p, p.Server(), w.serverRun))
    && (p.Client() != [] && w.wait.WaitThrew? ==> Yields(p, p.Client(), w.fallbackRun))
    && (0 < |missing| < |p.Client()| ==> Yields(p, missing, w.missingRun))
  }

  /** The wait came back normally and not one client output is there: the case no branch repairs. */
  predicate Abandoned(p: Plan, w: World, disk: set<string>)
    requires p.Valid()
  {
    && p.Client() != [] && w.wait.WaitReturned?
    && forall f | f in p.Client() :: p.Output(f) !in DiskAfterJoin(p, w, disk)
  }

  lemma ServerOutputOnDisk(p: Plan, w: World, disk: set<string>, f: string)
    requires p.Valid() && LocalRunsYield(p, w, disk) && f in p.Server()
    ensures p.Output(f) in FinalDisk(p, w, disk)
  {
    assert p.Output(f) in w.serverRun.added;
  }

  lemma ClientOutputOnDisk(p: Plan, w: World, disk: set<string>, f: string)
    requires p.Valid() && LocalRunsYield(p, w, disk) && f in p.Client()
    ensures p.Output(f) in FinalDisk(p, w, disk) <==> !Abandoned(p, w, disk)
  {
    var n, joined := p.group.naming, DiskAfterJoin(p, w, disk);
    AllMissing(n, p.Client(), joined);
    MissingIsWhatIsNotThere(n, p.Client(), joined, f);
    if w.wait.WaitThrew? {
      assert p.Output(f) in w.fallbackRun.added;
    } else if p.Output(f) !in joined && !Abandoned(p, w, disk) {
      assert f in MissingClients(p, w, disk);
    }
  }

  /** Exactly which frames succeed, for every group, split and course of events in which local executions
      write an output for every row they are given: a server frame always, a client frame unless the
      cluster was abandoned. */
  lemma FateOfEveryFrame(p: Plan, w: World, disk: set<string>, fates: seq<Fate>, k: nat)
    requires p.Valid() && Ends(p, w, disk, fates) && LocalRunsYield(p, w, disk) && k < |fates|
    ensures fates[k].Succeeded? <==> k < p.kept || !Abandoned(p, w, disk)
    ensures fates[k].Succeeded? ==> fates[k].output == p.Output(p.group.active[k])
    ensures fates[k].Succeeded? || fates[k].Failed?
  {
    var f := p.group.active[k];
    if k < p.kept {
      assert p.Server()[k] == f;
      ServerOutputOnDisk(p, w, disk, f);
    } else {
      assert p.Client()[k - p.kept] == f;
      ClientOutputOnDisk(p, w, disk, f);
    }
  }

  /** No frame is lost if and only if the cluster was not abandoned; otherwise exactly the client frames
      fail, and the operation fails as a whole only when the server kept none. */
  lemma NoFrameLostUnlessAbandoned(p: Plan, w: World, disk: set<string>, fates: seq<Fate>)
    requires p.Valid() && Ends(p, w, disk, fates) && LocalRunsYield(p, w, disk) && p.group.active != []
    ensures Count(fates, false) == 0 <==> !Abandoned(p, w, disk)
    ensures Abandoned(p, w, disk) ==> Count(fates, false) == |p.Client()| && Count(fates, true) == p.kept
    ensures Count(fates, true) == 0 <==> Abandoned(p, w, disk) && p.kept == 0
  {
    forall k | 0 <= k < |fates|
      ensures fates[k].Succeeded? <==> k < p.kept || !Abandoned(p, w, disk)
    {
      FateOfEveryFrame(p, w, disk, fates, k);
    }
    CountsCover(fates);
    if Abandoned(p, w, disk) {
      CountsSplit(fates, p.kept);
    }
  }

  lemma {:induction false} CountsSplit(fates: seq<Fate>, k: nat)
    requires k <= |fates| && forall i | 0 <= i < |fates| :: fates[i].Succeeded? <==> i < k
    ensures Count(fates, true) == k && Count(fates, false) == |fates| - k
  {
    if fates != [] {
      CountsSplit(fates[..|fates| - 1], if k < |fates| then k else k - 1);
    }
  }

  /** The outputs are new and all different, and the server wrote only its own. */
  ghost predicate FreshOutputs(p: Plan, w: World, disk: set<string>)
    requires p.Valid()
  {
    && (forall i, k | 0 <= i < k < |p.group.active| :: p.Output(p.group.active[i]) != p.Output(p.group.active[k]))
    && (forall f | f in p.group.active :: p.Output(f) !in disk)
    && (forall o | o in w.serverRun.added :: exists f | f in p.Server() :: p.Output(f) == o)
  }

  lemma ServerWritesNoClientOutput(p: Plan, w: World, disk: set<string>, k: nat)
    requires p.Valid() && FreshOutputs(p, w, disk) && p.kept <= k < |p.group.active|
    ensures p.Output(p.group.active[k]) !in w.serverRun.added
  {
    forall o | o in w.serverRun.added ensures o != p.Output(p.group.active[k]) {
      var f :| f in p.Server() && p.Output(f) == o;
      var i :| 0 <= i < |p.Server()| && p.Server()[i] == f;
      assert p.group.active[i] == f;
    }
  }

  /** For fresh, distinct outputs the condition is one about the cluster alone. */
  lemma AbandonedMeansNothingLanded(p: Plan, w: World, disk: set<string>)
    requires p.Valid() && FreshOutputs(p, w, disk)
    ensures Abandoned(p, w, disk) <==>
            p.Client() != [] && w.wait.WaitReturned? && forall f | f in p.Client() :: p.Output(f) !in w.wait.landed
  {
    if p.Client() != [] && w.wait.WaitReturned? {
      forall f | f in p.Client()
        ensures p.Output(f) in DiskAfterJoin(p, w, disk) <==> p.Output(f) in w.wait.landed
      {
        var k :| 0 <= k < |p.Client()| && p.Client()[k] == f;
        assert p.group.active[p.kept + k] == f;
        ServerWritesNoClientOutput(p, w, disk, p.kept + k);
      }
    }
  }

  /** A world in which the frame is lost: one client frame, the wait returns, nothing has landed. */
  lemma AbandonedFrameFails()
    ensures var p := Plan(Group(["/in/a.xisf"], true, false, Naming("/out", "", "_r", ".xisf"), false), 0);
            var none := Execution({}, false);
            var w := World([], Captured, true, true, none, WaitReturned({}), none, none);
            && GoesThrough(p, w) && LocalRunsYield(p, w, {}) && Abandoned(p, w, {})
            && Judge(p.group, "/in/a.xisf", FinalDisk(p, w, {})) == Failed
  {
    var p := Plan(Group(["/in/a.xisf"], true, false, Naming("/out", "", "_r", ".xisf"), false), 0);
    var none := Execution({}, false);
    var w := World([], Captured, true, true, none, WaitReturned({}), none, none);
    AllMissing(p.group.naming, p.Client(), {});
    assert DiskAfterJoin(p, w, {}) == {};
  }
}
