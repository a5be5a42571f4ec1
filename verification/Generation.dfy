/** Installing a new generation of profiles: written aside, swapped in by two renames, rolled back when it does
    not load. Any step may fail, and the machine may stop between any two. */
module Generation {
  import opened Wrappers

  datatype Path = Path(profile: string, file: string)

  /** The files below a directory. */
  type Tree = map<Path, string>

  datatype File = File(name: string, text: string)

  type Manifest = map<string, seq<File>>

  /** The three directories; a missing one is none. */
  datatype Disk = Disk(staging: Option<Tree>, prev: Option<Tree>, live: Option<Tree>)

  /** How a recursive removal goes: the files still there at each moment, and those left if it fails. */
  datatype Removal = Removal(passing: seq<set<Path>>, left: Option<set<Path>>)

  function Only(tree: Tree, kept: set<Path>): Tree {
    map p | p in tree && p in kept :: tree[p]
  }

  /** What a removal leaves of a directory: nothing, or some of its files. */
  function Left(dir: Option<Tree>, r: Removal): Option<Tree> {
    if dir.None? || r.left.None? then None else Some(Only(dir.value, r.left.value))
  }

  /** A removal that fails leaves the directory with some of its files as they were; one that succeeds leaves nothing. */
  lemma RemovalLeaves(dir: Option<Tree>, r: Removal)
    ensures Left(dir, r).Some? <==> dir.Some? && r.left.Some?
    ensures dir.Some? && r.left.Some? ==>
      forall p :: Get(Left(dir, r).value, p) == if p in r.left.value then Get(dir.value, p) else None
  {}

  /** How far writing gets: `steps` directories and files, then possibly a torn file. */
  datatype Writing = Writing(steps: nat, torn: string)

  /** What the environment does to one call. A `true` makes the step fail. */
  datatype Weather = Weather(
    mkdir: bool, clearStaging: Removal, write: Writing, clearPrev: Removal, park: bool, promote: bool, unpark: bool,
    load: bool, dropLive: Removal, restore: bool, reload: bool, dropPrev: Removal, dropStaging: Removal)

  // ---------- what a manifest says ----------

  /** The text the last file of that name has. */
  function TextOf(files: seq<File>, name: string): Option<string> {
    if files == [] then None
    else
      var n := |files| - 1;
      if files[n].name == name then Some(files[n].text) else TextOf(files[..n], name)
  }

  ghost predicate IsTree(m: Manifest, tree: Tree) {
    forall p :: Get(tree, p) == if p.profile in m then TextOf(m[p.profile], p.file) else None
  }

  /** The tree over whatever was already there. */
  ghost predicate IsWritten(m: Manifest, before: Tree, after: Tree) {
    forall p ::
      Get(after, p) == if p.profile in m && TextOf(m[p.profile], p.file).Some? then TextOf(m[p.profile], p.file)
                       else Get(before, p)
  }

  lemma WrittenIsUnique(m: Manifest, before: Tree, a: Tree, b: Tree)
    requires IsWritten(m, before, a) && IsWritten(m, before, b)
    ensures a == b
  {
    forall p ensures (p in a <==> p in b) && (p in a ==> a[p] == b[p]) {
      assert Get(a, p) == Get(b, p);
    }
    assert a.Keys == b.Keys;
  }

  /** The directories and files to be written below the staging directory. */
  ghost function WriteCost(m: Manifest): nat {
    if m == map[] then 0
    else
      var name :| name in m;
      1 + |m[name]| + WriteCost(m - {name})
  }

  lemma {:induction false} CostTakeOut(m: Manifest, name: string)
    requires name in m
    ensures WriteCost(m) == 1 + |m[name]| + WriteCost(m - {name})
  {
    var other :| other in m && WriteCost(m) == 1 + |m[other]| + WriteCost(m - {other});
    if other != name {
      CostTakeOut(m - {other}, name);
      CostTakeOut(m - {name}, other);
      assert m - {other} - {name} == m - {name} - {other};
    }
  }

  /** The manifest has every file of the tree. */
  ghost predicate Covers(m: Manifest, tree: Tree) {
    forall p :: p in tree ==> p.profile in m && TextOf(m[p.profile], p.file).Some?
  }

  /** What was there before shows through exactly where the manifest has no such file. */
  lemma WrittenIsTree(m: Manifest, before: Tree, after: Tree)
    requires IsWritten(m, before, after)
    ensures IsTree(m, after) <==> Covers(m, before)
  {
    if IsTree(m, after) {
      forall p | p in before ensures p.profile in m && TextOf(m[p.profile], p.file).Some? {
        assert Get(after, p) == if p.profile in m then TextOf(m[p.profile], p.file) else None;
      }
    } else {
      var p :| Get(after, p) != if p.profile in m then TextOf(m[p.profile], p.file) else None;
      assert p in before;
    }
  }

  // ---------- the published snapshot ----------

  class Store {
    var dir: string
    var cur: Tree
    var gen: nat

    constructor (dir: string, cur: Tree)
      ensures this.dir == dir && this.cur == cur && gen == 1
    {
      this.dir, this.cur, gen := dir, cur, 1;
    }

    /** Publishes what the directory holds, or keeps everything as it was. */
    method ReloadFrom(dir: string, tree: Option<Tree>, fails: bool, loads: Tree -> bool) returns (ok: bool)
      modifies this
      ensures ok <==> tree.Some? && !fails && loads(tree.value)
      ensures ok ==> this.dir == dir && cur == tree.value && gen == old(gen) + 1
      ensures !ok ==> this.dir == old(this.dir) && cur == old(cur) && gen == old(gen)
    {
      var prev := this.dir;
      this.dir := dir;
      ok := tree.Some? && !fails && loads(tree.value);
      if !ok {
        this.dir := prev;
        return;
      }
      gen := gen + 1;
      cur := tree.value;
    }
  }

  // ---------- the disk ----------

  /** `trace` records the disk after every change, where a crash could leave it. */
  class FileSystem {
    var disk: Disk
    ghost var trace: seq<Disk>

    constructor (disk: Disk)
      ensures this.disk == disk && trace == [disk]
    {
      this.disk := disk;
      trace := [disk];
    }

    method Set(next: Disk)
      modifies this
      ensures disk == next && trace == old(trace) + [next]
    {
      disk := next;
      trace := trace + [next];
    }

    method RemoveStaging(r: Removal)
      modifies this
      ensures disk == old(disk).(staging := Left(old(disk).staging, r))
      ensures Extends(trace, old(trace))
      ensures forall i :: |old(trace)| <= i < |trace| ==> SameButStaging(trace[i], old(disk))
    {
      var dir := disk.staging;
      ghost var t0, d0 := trace, disk;
      for i := 0 to |r.passing|
        invariant SameButStaging(disk, d0) && Extends(trace, t0)
        invariant forall k :: |t0| <= k < |trace| ==> SameButStaging(trace[k], d0)
      {
        if dir.Some? {
          Set(disk.(staging := Some(Only(dir.value, r.passing[i]))));
        }
      }
      Set(disk.(staging := Left(dir, r)));
    }

    method RemovePrev(r: Removal)
      modifies this
      ensures disk == old(disk).(prev := Left(old(disk).prev, r))
      ensures Extends(trace, old(trace))
      ensures forall i :: |old(trace)| <= i < |trace| ==> trace[i].live == old(disk).live
    {
      var dir := disk.prev;
      ghost var t0, d0 := trace, disk;
      for i := 0 to |r.passing|
        invariant disk.live == d0.live && disk.staging == d0.staging && Extends(trace, t0)
        invariant forall k :: |t0| <= k < |trace| ==> trace[k].live == d0.live
      {
        if dir.Some? {
          Set(disk.(prev := Some(Only(dir.value, r.passing[i]))));
        }
      }
      Set(disk.(prev := Left(dir, r)));
    }

    method RemoveLive(r: Removal)
      modifies this
      ensures disk == old(disk).(live := Left(old(disk).live, r))
      ensures Extends(trace, old(trace))
      ensures forall i :: |old(trace)| <= i < |trace| ==> trace[i].prev == old(disk).prev
    {
      var dir := disk.live;
      ghost var t0, d0 := trace, disk;
      for i := 0 to |r.passing|
        invariant disk.prev == d0.prev && disk.staging == d0.staging && Extends(trace, t0)
        invariant forall k :: |t0| <= k < |trace| ==> trace[k].prev == d0.prev
      {
        if dir.Some? {
          Set(disk.(live := Some(Only(dir.value, r.passing[i]))));
        }
      }
      Set(disk.(live := Left(dir, r)));
    }

    /** Writes the manifest below `.next`, one directory or file at a time; succeeds exactly when no step fails. */
    method Write(m: Manifest, w: Writing) returns (ok: bool)
      modifies this
      ensures SameButStaging(disk, old(disk)) && Extends(trace, old(trace))
      ensures forall i :: |old(trace)| <= i < |trace| ==> SameButStaging(trace[i], old(disk))
      ensures ok ==> disk.staging.Some? && IsWritten(m, old(disk).staging.GetOr(map[]), disk.staging.value)
      ensures ok <==> w.steps > WriteCost(m)
    {
      ghost var t0, d0 := trace, disk;
      if w.steps == 0 {
        return false;
      }
      var left: nat := w.steps - 1;
      var tree := disk.staging.GetOr(map[]);
      ghost var before := tree;
      Set(disk.(staging := Some(tree)));
      var rest := m.Keys;
      ghost var done, todo: Manifest := map[], m;
      while rest != {}
        invariant rest == todo.Keys && done == m - rest && todo == m - done.Keys
        invariant left + WriteCost(m) == w.steps - 1 + WriteCost(todo)
        invariant disk.staging == Some(tree) && IsWritten(done, before, tree)
        invariant SameButStaging(disk, d0) && Extends(trace, t0)
        invariant forall k :: |t0| <= k < |trace| ==> SameButStaging(trace[k], d0)
      {
        var name :| name in rest;
        CostTakeOut(todo, name);
        ghost var sofar := tree;
        ok, left, tree := WriteProfile(name, m[name], left, w.torn, tree);
        if !ok {
          return;
        }
        WrittenProfile(m, done, name, before, sofar, tree);
        OneMoreDone(m, rest, done, todo, name);
        rest := rest - {name};
        done, todo := done[name := m[name]], todo - {name};
      }
      assert done == m && todo == map[];
      ok := true;
    }

    /** One profile: its directory, then its files in order. */
    method WriteProfile(name: string, files: seq<File>, steps: nat, torn: string, before: Tree)
      returns (ok: bool, left: nat, tree: Tree)
      requires disk.staging == Some(before)
      modifies this
      ensures SameButStaging(disk, old(disk)) && Extends(trace, old(trace))
      ensures forall i :: |old(trace)| <= i < |trace| ==> SameButStaging(trace[i], old(disk))
      ensures ok <==> steps > |files|
      ensures ok ==> left == steps - 1 - |files| && disk.staging == Some(tree)
      ensures ok ==> IsWritten(map[name := files], before, tree)
    {
      ghost var t0, d0 := trace, disk;
      left, tree := steps, before;
      if steps == 0 {
        return false, left, tree;
      }
      left := left - 1;
      for i := 0 to |files|
        invariant left == steps - 1 - i
        invariant disk.staging == Some(tree) && IsWritten(map[name := files[..i]], before, tree)
        invariant SameButStaging(disk, d0) && Extends(trace, t0)
        invariant forall k :: |t0| <= k < |trace| ==> SameButStaging(trace[k], d0)
      {
        var path := Path(name, files[i].name);
        if left == 0 {
          Set(disk.(staging := Some(tree[path := torn])));
          return false, left, tree;
        }
        left := left - 1;
        WrittenStep(name, files, i, before, tree);
        tree := tree[path := files[i].text];
        Set(disk.(staging := Some(tree)));
      }
      assert files[..|files|] == files;
      ok := true;
    }
  }

  lemma OneMoreDone(m: Manifest, rest: set<string>, done: Manifest, todo: Manifest, name: string)
    requires name in rest && rest == todo.Keys && done == m - rest && todo == m - done.Keys
    ensures done[name := m[name]] == m - (rest - {name})
    ensures todo - {name} == m - done[name := m[name]].Keys && (todo - {name}).Keys == rest - {name}
  {}

  lemma WrittenStep(name: string, files: seq<File>, i: nat, before: Tree, tree: Tree)
    requires i < |files| && IsWritten(map[name := files[..i]], before, tree)
    ensures IsWritten(map[name := files[..i + 1]], before, tree[Path(name, files[i].name) := files[i].text])
  {
    assert files[..i + 1][..i] == files[..i];
  }

  lemma WrittenProfile(m: Manifest, done: Manifest, name: string, before: Tree, sofar: Tree, tree: Tree)
    requires name in m && name !in done
    requires IsWritten(done, before, sofar) && IsWritten(map[name := m[name]], sofar, tree)
    ensures IsWritten(done[name := m[name]], before, tree)
  {}

  predicate Extends(longer: seq<Disk>, shorter: seq<Disk>) {
    shorter <= longer
  }

  predicate SameButStaging(d: Disk, e: Disk) {
    d.prev == e.prev && d.live == e.live
  }

  // ---------- the swap ----------

  /** A complete generation is in place or parked: the one that was live, or the new one. */
  ghost predicate Safe(d: Disk, was: Tree, m: Manifest, residue: Tree) {
    || d.live == Some(was) || d.prev == Some(was)
    || (d.live.Some? && IsWritten(m, residue, d.live.value))
  }

  ghost predicate SafeFrom(trace: seq<Disk>, n: nat, was: Tree, m: Manifest, residue: Tree) {
    forall i :: n <= i < |trace| ==> Safe(trace[i], was, m, residue)
  }

  /** What clearing `.next` leaves behind. */
  function Residue(staging: Option<Tree>, w: Weather): Tree {
    Left(staging, w.clearStaging).GetOr(map[])
  }

  ghost predicate Loadable(m: Manifest, residue: Tree, loads: Tree -> bool) {
    exists tree :: IsWritten(m, residue, tree) && loads(tree)
  }

  /** Whatever fails: a generation that was live stays whole, in place or parked, until the new one is whole in
      place. An error keeps the published snapshot if it was what `live` held. The call succeeds exactly when no step
      up to loading fails, nothing is left in the way of the live directory, as a rename fails on any directory in its
      way, also an empty one, and the new tree loads; then what is live is published. It is the manifest exactly when
      clearing `.next` left no file the manifest does not have. */
  method Apply(fs: FileSystem, store: Store, m: Manifest, w: Weather, loads: Tree -> bool) returns (ok: bool)
    modifies fs, store
    ensures Extends(fs.trace, old(fs.trace))
    ensures old(fs.disk).live.Some? ==>
      SafeFrom(fs.trace, |old(fs.trace)|, old(fs.disk).live.value, m, Residue(old(fs.disk).staging, w))
    ensures !ok && old(fs.disk).live.Some? ==> old(fs.disk).live in {fs.disk.live, fs.disk.prev}
    ensures !ok && old(fs.disk).live in {None, Some(old(store.cur))} ==> store.cur == old(store.cur)
    ensures !ok && old(fs.disk).live.Some? && !w.unpark && !w.restore && w.dropLive.left == None ==>
      fs.disk.live == old(fs.disk).live
    ensures ok <==> && !w.mkdir && w.write.steps > WriteCost(m) && !w.park && !w.promote && !w.load
                    && (old(fs.disk).live.Some? && old(fs.disk).prev.Some? ==> w.clearPrev.left == None)
                    && Loadable(m, Residue(old(fs.disk).staging, w), loads)
    ensures ok ==> fs.disk.live == Some(store.cur) && loads(store.cur) && store.gen == old(store.gen) + 1
    ensures ok ==> IsWritten(m, Residue(old(fs.disk).staging, w), store.cur)
    ensures ok ==> (IsTree(m, store.cur) <==> Covers(m, Residue(old(fs.disk).staging, w)))
  {
    ok := false;
    ghost var residue := Residue(fs.disk.staging, w);
    if w.mkdir {
      return;
    }
    var staged := Stage(fs, m, w);
    if !staged {
      return;
    }
    var lived, parked := Park(fs, m, w, residue);
    if !parked {
      return;
    }
    var promoted := Promote(fs, m, w, lived, residue);
    if !promoted {
      return;
    }
    WrittenIsTree(m, residue, fs.disk.live.value);
    OnlyOneLoads(m, residue, fs.disk.live.value, loads);
    ok := store.ReloadFrom("profiles", fs.disk.live, w.load, loads);
    if !ok {
      RollBack(fs, store, w, lived, loads);
      return;
    }
    fs.RemovePrev(w.dropPrev);
  }

  lemma OnlyOneLoads(m: Manifest, residue: Tree, tree: Tree, loads: Tree -> bool)
    requires IsWritten(m, residue, tree)
    ensures Loadable(m, residue, loads) <==> loads(tree)
  {
    forall t | IsWritten(m, residue, t) ensures t == tree {
      WrittenIsUnique(m, residue, t, tree);
    }
  }

  /** Up to the point where the new generation lies in `.next`. */
  method Stage(fs: FileSystem, m: Manifest, w: Weather) returns (ok: bool)
    modifies fs
    ensures Extends(fs.trace, old(fs.trace))
    ensures SameButStaging(fs.disk, old(fs.disk))
    ensures forall i :: |old(fs.trace)| <= i < |fs.trace| ==> SameButStaging(fs.trace[i], old(fs.disk))
    ensures ok ==> fs.disk.staging.Some? && IsWritten(m, Residue(old(fs.disk).staging, w), fs.disk.staging.value)
    ensures ok <==> w.write.steps > WriteCost(m)
  {
    fs.RemoveStaging(w.clearStaging);
    ok := fs.Write(m, w.write);
    if !ok {
      fs.RemoveStaging(w.dropStaging);
    }
  }

  /** Moves `live` to `.prev`. */
  method Park(fs: FileSystem, ghost m: Manifest, w: Weather, ghost residue: Tree) returns (lived: bool, ok: bool)
    requires fs.disk.staging.Some?
    modifies fs
    ensures Extends(fs.trace, old(fs.trace))
    ensures old(fs.disk).live.Some? ==>
      SafeFrom(fs.trace, |old(fs.trace)|, old(fs.disk).live.value, m, residue)
    ensures !ok ==> fs.disk.live == old(fs.disk).live
    ensures ok ==> fs.disk.staging == old(fs.disk).staging && fs.disk.live == None && lived == old(fs.disk).live.Some?
    ensures ok && lived ==> fs.disk.prev == old(fs.disk).live
    ensures ok <==> !w.park && (old(fs.disk).live.Some? && old(fs.disk).prev.Some? ==> w.clearPrev.left == None)
  {
    fs.RemovePrev(w.clearPrev);
    lived, ok := true, true;
    if fs.disk.live.None? || fs.disk.prev.Some? || w.park {
      if fs.disk.live.Some? || w.park {
        fs.RemoveStaging(w.dropStaging);
        return lived, false;
      }
      lived := false;
    } else {
      fs.Set(fs.disk.(prev := fs.disk.live, live := None));
    }
  }

  /** Moves `.next` to `live`, or what was parked back. */
  method Promote(fs: FileSystem, ghost m: Manifest, w: Weather, lived: bool, ghost residue: Tree) returns (ok: bool)
    requires fs.disk.staging.Some? && IsWritten(m, residue, fs.disk.staging.value)
    requires fs.disk.live == None && (lived ==> fs.disk.prev.Some?)
    modifies fs
    ensures Extends(fs.trace, old(fs.trace))
    ensures lived ==> SafeFrom(fs.trace, |old(fs.trace)|, old(fs.disk).prev.value, m, residue)
    ensures !ok && lived ==> old(fs.disk).prev in {fs.disk.live, fs.disk.prev}
    ensures !ok && lived && !w.unpark ==> fs.disk.live == old(fs.disk).prev
    ensures ok ==> fs.disk.live == old(fs.disk).staging && fs.disk.prev == old(fs.disk).prev
    ensures ok <==> !w.promote
  {
    if w.promote {
      if lived && !w.unpark {
        fs.Set(fs.disk.(live := fs.disk.prev, prev := None));
      }
      fs.RemoveStaging(w.dropStaging);
      return false;
    }
    fs.Set(fs.disk.(live := fs.disk.staging, staging := None));
    ok := true;
  }

  /** The new generation did not load: removes it and puts the parked one back. */
  method RollBack(fs: FileSystem, store: Store, w: Weather, lived: bool, loads: Tree -> bool)
    requires lived ==> fs.disk.prev.Some?
    modifies fs, store
    ensures Extends(fs.trace, old(fs.trace))
    ensures lived ==> old(fs.disk).prev in {fs.disk.live, fs.disk.prev}
    ensures lived ==> forall i :: |old(fs.trace)| <= i < |fs.trace| ==>
      old(fs.disk).prev in {fs.trace[i].live, fs.trace[i].prev}
    ensures lived && !w.restore && w.dropLive.left == None ==> fs.disk.live == old(fs.disk).prev
    ensures !lived ==> store.cur == old(store.cur)
    ensures lived && old(fs.disk).prev == Some(old(store.cur)) ==> store.cur == old(store.cur)
  {
    fs.RemoveLive(w.dropLive);
    if lived && fs.disk.live.None? && !w.restore {
      fs.Set(fs.disk.(live := fs.disk.prev, prev := None));
      var _ := store.ReloadFrom("profiles", fs.disk.live, w.reload, loads);
    }
  }

  /** Some tree the manifest writes over `before`. */
  lemma OverlayExists(m: Manifest, before: Tree) returns (after: Tree)
    ensures IsWritten(m, before, after)
    decreases |m|
  {
    if m == map[] {
      after := before;
    } else {
      var name :| name in m;
      var done := m - {name};
      var sofar := OverlayExists(done, before);
      after := ProfileOver(name, m[name], sofar);
      WrittenProfile(m, done, name, before, sofar, after);
      assert done[name := m[name]] == m;
    }
  }

  lemma ProfileOver(name: string, files: seq<File>, before: Tree) returns (after: Tree)
    ensures IsWritten(map[name := files], before, after)
    decreases |files|
  {
    if files == [] {
      after := before;
    } else {
      var n := |files| - 1;
      var tree := ProfileOver(name, files[..n], before);
      WrittenStep(name, files, n, before, tree);
      assert files[..n + 1] == files;
      after := tree[Path(name, files[n].name) := files[n].text];
    }
  }

  /** Clearing `.next` is not checked. Where an abandoned attempt left a file of a profile the manifest does not have
      and the removal fails on it, with everything else going well, the call succeeds and that file goes live. */
  method ResidueCanGoLive(m: Manifest, p: Path, text: string, steps: nat, loads: Tree -> bool)
    returns (ok: bool, live: Option<Tree>)
    requires p.profile !in m && steps > WriteCost(m) && forall t :: loads(t)
    ensures ok && live.Some? && Get(live.value, p) == Some(text) && !IsTree(m, live.value)
  {
    var clear := Removal([], None);
    var w := Weather(false, Removal([], Some({p})), Writing(steps, ""), clear, false, false, false, false, clear, false,
                     false, clear, clear);
    var store := new Store("base", map[]);
    var fs := new FileSystem(Disk(Some(map[p := text]), None, None));
    ghost var residue := Residue(Some(map[p := text]), w);
    assert residue == map[p := text];
    ghost var tree := OverlayExists(m, residue);
    assert p in residue && Loadable(m, residue, loads);
    ok := Apply(fs, store, m, w, loads);
    live := fs.disk.live;
    assert Get(store.cur, p) == Get(residue, p);
  }
}
