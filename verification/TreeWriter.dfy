/** Writing a mirrored source tree into a directory that may hold files of others. */
module TreeWriters {
  import opened Wrappers
  import opened FileTrees
  import opened TreePruning
  import Manifests

  // ----- the paths of a tree

  /** Gives every mirrored path its key and refuses two paths with one key. */
  class TreeLayout {
    const keyFor: map<string, string>
    var pathToKey: map<string, string>
    var keyToPath: map<string, string>

    constructor (keyFor: map<string, string>)
      ensures this.keyFor == keyFor && pathToKey == map[] && keyToPath == map[]
    {
      this.keyFor, pathToKey, keyToPath := keyFor, map[], map[];
    }

    /** The two maps are inverse to one another. */
    ghost predicate Valid()
      reads this
    {
      && pathToKey.Keys <= keyFor.Keys
      && (forall p :: p in pathToKey ==> pathToKey[p] == keyFor[p] && keyFor[p] in keyToPath && keyToPath[keyFor[p]] == p)
      && (forall k :: k in keyToPath ==> keyToPath[k] in pathToKey && pathToKey[keyToPath[k]] == k)
    }

    method Register(path: string) returns (key: Option<string>)
      requires Valid() && path in keyFor
      modifies this
      ensures Valid()
      ensures key.None? <==> exists p :: p in old(pathToKey) && p != path && keyFor[p] == keyFor[path]
      ensures key.None? ==> pathToKey == old(pathToKey) && keyToPath == old(keyToPath)
      ensures key.Some? ==> key.value == keyFor[path] && pathToKey == old(pathToKey)[path := keyFor[path]]
    {
      var own := keyFor[path];
      if own in keyToPath && keyToPath[own] != path {
        return None;
      }
      keyToPath := keyToPath[own := path];
      pathToKey := pathToKey[path := own];
      return Some(own);
    }
  }

  // ----- one file

  /** Only `key` and the directories on its way may differ, and no directory is lost. */
  ghost predicate OneChanged(before: Nodes, after: Nodes, key: string) {
    && (forall k :: k in before && (k != key || before[k].Dir?) ==> k in after && after[k] == before[k])
    && (forall k :: k in after ==> k in before || k == key || (after[k].Dir? && IsAncestor(k, key)))
  }

  /** Equal bytes are left alone. */
  method WriteOne(disk: FileSystem, key: string, bytes: string) returns (r: Outcome)
    requires Tree(disk.nodes) && Clean(key) && key != ""
    requires key in disk.nodes ==> !disk.nodes[key].Special?
    modifies disk
    ensures Tree(disk.nodes) && OneChanged(old(disk.nodes), disk.nodes, key)
    ensures r.Done? ==> Lookup(disk.nodes, key) == Some(File(bytes))
    ensures !disk.faulty ==> !r.Crashed?
    ensures !disk.faulty ==> (r.Done? <==> !IsDir(old(disk.nodes), key) && !Obstructed(old(disk.nodes), key))
  {
    var existing := disk.ReadFile(key);
    if existing == Some(bytes) {
      return Done;
    }
    ghost var before := disk.nodes;
    ParentIsAncestor(key);
    AncestorsObstructed(before, key);
    var ok := disk.CreateDirectories(Parent(key));
    GrownTowards(before, disk.nodes, key);
    if !ok {
      ParentObstructs(before, key);
      return Failed;
    }
    ghost var between := disk.nodes;
    NotItsOwnParent(before, between, key);
    r := disk.WriteFile(key, bytes);
  }

  lemma ParentObstructs(nodes: Nodes, key: string)
    requires Tree(nodes) && key != "" && Clean(key)
    ensures Obstructed(nodes, Parent(key)) ==> Obstructed(nodes, key)
    ensures Parent(key) in nodes && !nodes[Parent(key)].Dir? ==> Obstructed(nodes, key)
  {
    ParentIsAncestor(key);
    AncestorsObstructed(nodes, key);
  }

  lemma NotItsOwnParent(before: Nodes, between: Nodes, key: string)
    requires key != "" && Clean(key) && Grown(before, between, Parent(key)) && Tree(between)
    ensures key in between <==> key in before
    ensures Parent(key) in between && !Obstructed(before, key) ==> IsDir(between, Parent(key))
  {
    ParentIsAncestor(key);
  }

  // ----- all files

  ghost predicate IsFolder(keys: set<string>, d: string) {
    exists f :: f in keys && IsAncestor(d, f)
  }

  /** No key lies below another key or below an existing file. */
  ghost predicate Clear(nodes: Nodes, keys: set<string>) {
    forall f, d :: f in keys && IsAncestor(d, f) ==> d !in keys && (d in nodes ==> nodes[d].Dir?)
  }

  ghost predicate Progress(base: Nodes, nodes: Nodes, files: map<string, string>, done: set<string>) {
    && Tree(nodes) && done <= files.Keys
    && (forall k :: k in done ==> Lookup(nodes, k) == Some(File(files[k])))
    && (forall k :: k in base && k !in done ==> k in nodes && nodes[k] == base[k])
    && (forall k :: k in nodes ==> k in base || k in done || (nodes[k].Dir? && IsFolder(files.Keys, k)))
  }

  /** What holds even when a write stopped halfway. */
  ghost predicate Touched(base: Nodes, nodes: Nodes, keys: set<string>) {
    && (forall k :: k in base && k !in keys ==> k in nodes && nodes[k] == base[k])
    && (forall k :: k in nodes ==> k in base || k in keys || (nodes[k].Dir? && IsFolder(keys, k)))
  }

  lemma OneMoreDone(base: Nodes, before: Nodes, after: Nodes, files: map<string, string>, done: set<string>, key: string)
    requires Progress(base, before, files, done) && key in files && key !in done
    requires Tree(after) && OneChanged(before, after, key)
    ensures Touched(base, after, files.Keys)
    ensures Lookup(after, key) == Some(File(files[key])) ==> Progress(base, after, files, done + {key})
  {
  }

  lemma ObstacleIsNotClear(base: Nodes, nodes: Nodes, files: map<string, string>, done: set<string>, key: string)
    requires Progress(base, nodes, files, done) && key in files && key !in done
    requires key in base ==> base[key].File?
    requires IsDir(nodes, key) || Obstructed(nodes, key)
    ensures !Clear(base, files.Keys)
  {
    if Obstructed(nodes, key) {
      var d :| d in nodes && IsAncestor(d, key) && !nodes[d].Dir?;
      assert d in base || d in done;
    } else {
      var f :| f in files && IsAncestor(key, f);
    }
  }

  lemma AllDoneIsClear(base: Nodes, nodes: Nodes, files: map<string, string>)
    requires Progress(base, nodes, files, files.Keys)
    ensures Clear(base, files.Keys)
  {
    forall f, d | f in files && IsAncestor(d, f)
      ensures d !in files && (d in base ==> base[d].Dir?)
    {
      assert IsDir(nodes, d);
    }
  }

  method WriteAll(disk: FileSystem, files: map<string, string>) returns (r: Outcome)
    requires Tree(disk.nodes) && forall k :: k in files ==> Clean(k) && k != ""
    requires forall k :: k in files && k in disk.nodes ==> disk.nodes[k].File?
    modifies disk
    ensures Tree(disk.nodes) && Touched(old(disk.nodes), disk.nodes, files.Keys)
    ensures r.Done? ==> forall k :: k in files ==> Lookup(disk.nodes, k) == Some(File(files[k]))
    ensures !disk.faulty ==> !r.Crashed? && (r.Done? <==> Clear(old(disk.nodes), files.Keys))
  {
    ghost var base := disk.nodes;
    var pending := files.Keys;
    assert files.Keys - pending == {};
    while pending != {}
      invariant pending <= files.Keys && Progress(base, disk.nodes, files, files.Keys - pending)
    {
      var key :| key in pending;
      ghost var before, done := disk.nodes, files.Keys - pending;
      if !disk.faulty && (IsDir(before, key) || Obstructed(before, key)) {
        ObstacleIsNotClear(base, before, files, done, key);
      }
      PendingIsPlain(base, before, files, done, key);
      r := WriteOne(disk, key, files[key]);
      OneMoreDone(base, before, disk.nodes, files, done, key);
      if !r.Done? {
        return r;
      }
      pending := pending - {key};
      assert files.Keys - pending == done + {key};
    }
    assert files.Keys - pending == files.Keys;
    AllDoneIsClear(base, disk.nodes, files);
    return Done;
  }

  lemma PendingIsPlain(base: Nodes, nodes: Nodes, files: map<string, string>, done: set<string>, key: string)
    requires Progress(base, nodes, files, done) && key in files && key !in done
    requires key in base ==> base[key].File?
    ensures key in nodes ==> !nodes[key].Special?
  {
  }

  // ----- the whole run

  ghost function KeySet(rendered: map<string, string>, keyFor: map<string, string>): (keys: set<string>)
    requires rendered.Keys <= keyFor.Keys
    ensures forall k :: k in keys <==> exists p :: p in rendered && keyFor[p] == k
  {
    set p | p in rendered :: keyFor[p]
  }

  ghost predicate DistinctKeys(rendered: map<string, string>, keyFor: map<string, string>)
    requires rendered.Keys <= keyFor.Keys
  {
    forall p, q :: p in rendered && q in rendered && keyFor[p] == keyFor[q] ==> p == q
  }

  /** The bytes of every rendered file under its key. */
  ghost predicate IsFilesOf(files: map<string, string>, rendered: map<string, string>, keyFor: map<string, string>)
    requires rendered.Keys <= keyFor.Keys
  {
    && files.Keys == KeySet(rendered, keyFor)
    && forall p :: p in rendered ==> keyFor[p] in files && files[keyFor[p]] == rendered[p]
  }

  lemma ClashIsNotDistinct(rendered: map<string, string>, keyFor: map<string, string>, done: set<string>, path: string)
    requires done <= rendered.Keys <= keyFor.Keys && path in rendered
    requires exists p :: p in done && p != path && keyFor[p] == keyFor[path]
    ensures !DistinctKeys(rendered, keyFor)
  {
    var p :| p in done && p != path && keyFor[p] == keyFor[path];
    assert p in rendered;
  }

  method RegisterAll(rendered: map<string, string>, keyFor: map<string, string>)
    returns (files: Option<map<string, string>>)
    requires rendered.Keys <= keyFor.Keys
    ensures files.Some? <==> DistinctKeys(rendered, keyFor)
    ensures files.Some? ==> IsFilesOf(files.value, rendered, keyFor)
  {
    var layout := new TreeLayout(keyFor);
    var all: map<string, string> := map[];
    var pending := rendered.Keys;
    while pending != {}
      invariant layout.Valid() && layout.keyFor == keyFor && layout.pathToKey.Keys == rendered.Keys - pending
      invariant pending <= rendered.Keys && Collected(rendered, keyFor, rendered.Keys - pending, all)
    {
      var path :| path in pending;
      ghost var done := layout.pathToKey.Keys;
      var key := layout.Register(path);
      if key.None? {
        ClashIsNotDistinct(rendered, keyFor, done, path);
        return None;
      }
      CollectOne(rendered, keyFor, done, all, path);
      assert rendered.Keys - (pending - {path}) == done + {path};
      all := all[key.value := rendered[path]];
      pending := pending - {path};
    }
    assert rendered.Keys - {} == rendered.Keys;
    AllCollected(rendered, keyFor, all);
    return Some(all);
  }

  lemma AllCollected(rendered: map<string, string>, keyFor: map<string, string>, files: map<string, string>)
    requires Collected(rendered, keyFor, rendered.Keys, files)
    ensures DistinctKeys(rendered, keyFor) && IsFilesOf(files, rendered, keyFor)
  {
  }

  ghost predicate Collected(rendered: map<string, string>, keyFor: map<string, string>, paths: set<string>,
                            files: map<string, string>)
  {
    && paths <= rendered.Keys <= keyFor.Keys
    && (forall p, q :: p in paths && q in paths && keyFor[p] == keyFor[q] ==> p == q)
    && (forall p :: p in paths ==> keyFor[p] in files && files[keyFor[p]] == rendered[p])
    && (forall k :: k in files ==> exists p :: p in paths && keyFor[p] == k)
  }

  lemma CollectOne(rendered: map<string, string>, keyFor: map<string, string>, paths: set<string>,
                   files: map<string, string>, path: string)
    requires Collected(rendered, keyFor, paths, files) && path in rendered && path !in paths
    requires forall p :: p in paths ==> keyFor[p] != keyFor[path]
    ensures Collected(rendered, keyFor, paths + {path}, files[keyFor[path] := rendered[path]])
  {
    var more := files[keyFor[path] := rendered[path]];
    forall k | k in more
      ensures exists p :: p in paths + {path} && keyFor[p] == k
    {
      if k != keyFor[path] {
        var p :| p in paths && keyFor[p] == k;
        assert p in paths + {path};
      }
    }
  }

  predicate CollidesWithManifest(key: string) {
    key == MANIFEST || MANIFEST + "/" <= key
  }

  /** Nothing stands at the destination, or a file that the previous run wrote. */
  predicate Free(nodes: Nodes, owned: set<string>, key: string) {
    key in nodes ==> key in owned && nodes[key].File?
  }

  method CheckDestinations(disk: FileSystem, owned: set<string>, keys: set<string>) returns (ok: bool)
    ensures ok ==> forall k :: k in keys ==> Free(disk.nodes, owned, k)
    ensures !disk.faulty ==> (ok <==> forall k :: k in keys ==> Free(disk.nodes, owned, k))
  {
    var pending := keys;
    while pending != {}
      invariant pending <= keys && forall k :: k in keys - pending ==> Free(disk.nodes, owned, k)
    {
      var key :| key in pending;
      var status := disk.Stat(key);
      if status.Unreadable? || (status.Found? && (key !in owned || !status.node.File?)) {
        return false;
      }
      pending := pending - {key};
    }
    return true;
  }

  /** Records `keys` as the files of this run. */
  method WriteManifest(disk: FileSystem, keys: set<string>) returns (r: Outcome)
    requires Tree(disk.nodes) && forall k :: k in keys ==> Manifests.GoodKey(k)
    requires MANIFEST in disk.nodes ==> disk.nodes[MANIFEST].File?
    requires "" in disk.nodes ==> disk.nodes[""].Dir?
    modifies disk
    ensures Tree(disk.nodes)
    ensures forall k :: k in old(disk.nodes) && k != MANIFEST ==> k in disk.nodes && disk.nodes[k] == old(disk.nodes)[k]
    ensures forall k :: k in disk.nodes && k !in old(disk.nodes) ==>
              k == MANIFEST || (k == "" && disk.nodes[k].Dir?)
    ensures r.Done? ==> IsDir(disk.nodes, "") && PreviousFiles(disk.nodes) == Files(keys)
    ensures !disk.faulty ==> r.Done?
  {
    ManifestIsAtTheTop();
    var ok := disk.CreateDirectories("");
    if !ok {
      return Failed;
    }
    var text, _ := Manifests.PrintManifest(keys);
    var existing := disk.ReadFile(MANIFEST);
    if existing == Some(text) {
      return Done;
    }
    r := disk.WriteFile(MANIFEST, text);
  }

  lemma ManifestIsAtTheTop()
    ensures Parent(MANIFEST) == "" && Clean(MANIFEST) && IsAncestor("", MANIFEST)
  {
    assert '/' !in MANIFEST;
  }

  /** The files that the manifest of a tree names. */
  ghost function Mine(nodes: Nodes): set<string> {
    match PreviousFiles(nodes)
    case Unusable => {}
    case Files(owned) => owned
  }

  /** Apart from the manifest, only files of the previous run differ; directories all stay. */
  ghost predicate Kept(before: Nodes, after: Nodes) {
    forall k :: k in before && k != MANIFEST && (k !in Mine(before) || before[k].Dir?) ==>
      k in after && after[k] == before[k]
  }

  ghost predicate OnlyAdded(before: Nodes, after: Nodes, keys: set<string>) {
    forall k :: k in after && k !in before ==>
      k == MANIFEST || k in keys || (after[k].Dir? && (k == "" || IsFolder(keys, k)))
  }

  /** What a successful run leaves at `k`. */
  ghost function Expected(before: Nodes, files: map<string, string>, k: string): Option<Node> {
    if k in files then Some(File(files[k]))
    else if k == "" || IsFolder(files.Keys, k) then Some(Dir)
    else if k in Stale(before, Mine(before), files.Keys) then None
    else Lookup(before, k)
  }

  ghost predicate Mirrored(before: Nodes, files: map<string, string>, after: Nodes) {
    && PreviousFiles(after) == Files(files.Keys)
    && forall k :: k != MANIFEST ==> Lookup(after, k) == Expected(before, files, k)
  }

  /** What is checked before anything is changed. */
  ghost predicate Acceptable(before: Nodes, rendered: map<string, string>, keyFor: map<string, string>)
    requires rendered.Keys <= keyFor.Keys
  {
    && DistinctKeys(rendered, keyFor)
    && PreviousFiles(before).Files?
    && forall k :: k in KeySet(rendered, keyFor) ==> !CollidesWithManifest(k) && Free(before, Mine(before), k)
  }

  /** No key lies below another key or below a file that stays. */
  ghost predicate Room(before: Nodes, keys: set<string>) {
    forall f, d :: f in keys && IsAncestor(d, f) ==>
      d !in keys && (d in before ==> before[d].Dir? || d in Mine(before))
  }

  /** The manifest still says what it said, unless it named itself and is gone. */
  ghost predicate ManifestAsBefore(before: Nodes, after: Nodes) {
    Lookup(after, MANIFEST) == Lookup(before, MANIFEST) || (MANIFEST in Mine(before) && MANIFEST !in after)
  }

  ghost predicate AllWritten(files: map<string, string>, nodes: Nodes) {
    forall k :: k in files ==> Lookup(nodes, k) == Some(File(files[k]))
  }

  /** The files of the previous run and those of this one. */
  datatype Plan = Plan(owned: set<string>, files: map<string, string>)

  class TreeWriter {
    const rendered: map<string, string>
    const keyFor: map<string, string>

    constructor (rendered: map<string, string>, keyFor: map<string, string>)
      ensures this.rendered == rendered && this.keyFor == keyFor
    {
      this.rendered, this.keyFor := rendered, keyFor;
    }

    method Write(disk: FileSystem) returns (r: Outcome, ghost files: map<string, string>)
      requires rendered.Keys <= keyFor.Keys && Tree(disk.nodes)
      requires forall p :: p in rendered ==> Manifests.GoodKey(keyFor[p]) && Clean(keyFor[p])
      modifies disk
      ensures Tree(disk.nodes)
      ensures Kept(old(disk.nodes), disk.nodes)
      ensures OnlyAdded(old(disk.nodes), disk.nodes, KeySet(rendered, keyFor))
      ensures !Acceptable(old(disk.nodes), rendered, keyFor) ==> r.Failed? && disk.nodes == old(disk.nodes)
      ensures r.Done? ==> IsFilesOf(files, rendered, keyFor) && Mirrored(old(disk.nodes), files, disk.nodes)
      ensures !r.Done? ==>
                || ManifestAsBefore(old(disk.nodes), disk.nodes)
                || (IsFilesOf(files, rendered, keyFor) && AllWritten(files, disk.nodes))
      ensures !disk.faulty ==> !r.Crashed?
      ensures !disk.faulty ==>
                (r.Done? <==> Acceptable(old(disk.nodes), rendered, keyFor)
                              && Room(old(disk.nodes), KeySet(rendered, keyFor)))
    {
      files := map[];
      var plan := Check(disk);
      if plan.None? {
        return Failed, files;
      }
      files := plan.value.files;
      r := Materialize(disk, plan.value.owned, plan.value.files);
    }

    /** All that is checked before anything is changed. */
    method Check(disk: FileSystem) returns (plan: Option<Plan>)
      requires rendered.Keys <= keyFor.Keys
      ensures plan.Some? ==> Acceptable(disk.nodes, rendered, keyFor) && IsFilesOf(plan.value.files, rendered, keyFor)
      ensures plan.Some? ==> PreviousFiles(disk.nodes) == Files(plan.value.owned)
      ensures !disk.faulty ==> (plan.Some? <==> Acceptable(disk.nodes, rendered, keyFor))
    {
      var registered := RegisterAll(rendered, keyFor);
      if registered.None? {
        return None;
      }
      var previous := ReadOwnershipManifest(disk);
      if previous.Unusable? {
        return None;
      }
      if exists k :: k in registered.value && CollidesWithManifest(k) {
        return None;
      }
      var free := CheckDestinations(disk, previous.owned, registered.value.Keys);
      return if free then Some(Plan(previous.owned, registered.value)) else None;
    }
  }

  /** Prunes, writes the files and records them. */
  method Materialize(disk: FileSystem, owned: set<string>, files: map<string, string>) returns (r: Outcome)
    requires Tree(disk.nodes) && PreviousFiles(disk.nodes) == Files(owned)
    requires forall k :: k in files ==> Manifests.GoodKey(k) && Clean(k)
    requires forall k :: k in files ==> !CollidesWithManifest(k) && Free(disk.nodes, owned, k)
    modifies disk
    ensures Tree(disk.nodes)
    ensures Kept(old(disk.nodes), disk.nodes) && OnlyAdded(old(disk.nodes), disk.nodes, files.Keys)
    ensures r.Done? ==> Mirrored(old(disk.nodes), files, disk.nodes)
    ensures !r.Done? ==> ManifestAsBefore(old(disk.nodes), disk.nodes) || AllWritten(files, disk.nodes)
    ensures !disk.faulty ==> !r.Crashed? && (r.Done? <==> Room(old(disk.nodes), files.Keys))
  {
    ghost var before := disk.nodes;
    var ok, gone := PruneAll(disk, owned, files.Keys);
    if !ok {
      RemovedIsKept(before, owned, files.Keys, gone);
      return Failed;
    }
    r := WriteTree(disk, before, owned, files);
  }

  /** Removes the stale files, or some of them on a failure. */
  method PruneAll(disk: FileSystem, owned: set<string>, keys: set<string>) returns (ok: bool, ghost gone: set<string>)
    requires Tree(disk.nodes) && PreviousFiles(disk.nodes) == Files(owned)
    modifies disk
    ensures Tree(disk.nodes) && disk.nodes == old(disk.nodes) - gone
    ensures gone <= Stale(old(disk.nodes), owned, keys) && (ok ==> gone == Stale(old(disk.nodes), owned, keys))
    ensures !disk.faulty ==> ok
  {
    ghost var before := disk.nodes;
    ghost var longest := Longest(before.Keys);
    PreviousFilesAreNamed(before);
    assert before - {} == before;
    ok, gone := PruneDirectory(disk, "", owned, keys, before, {}, longest);
    RemovalKeepsTree(before, gone);
    assert ok ==> gone == Stale(before, owned, keys);
  }

  /** Writes the files to the pruned tree and records them. */
  method WriteTree(disk: FileSystem, ghost before: Nodes, ghost owned: set<string>, files: map<string, string>)
    returns (r: Outcome)
    requires Tree(before) && PreviousFiles(before) == Files(owned)
    requires Tree(disk.nodes) && disk.nodes == before - Stale(before, owned, files.Keys)
    requires forall k :: k in files ==> Manifests.GoodKey(k) && Clean(k)
    requires forall k :: k in files ==> !CollidesWithManifest(k) && Free(before, owned, k)
    modifies disk
    ensures Tree(disk.nodes)
    ensures Kept(before, disk.nodes) && OnlyAdded(before, disk.nodes, files.Keys)
    ensures r.Done? ==> Mirrored(before, files, disk.nodes)
    ensures !r.Done? ==> ManifestAsBefore(before, disk.nodes) || AllWritten(files, disk.nodes)
    ensures !disk.faulty ==> !r.Crashed? && (r.Done? <==> Room(before, files.Keys))
  {
    RoomIsClear(before, owned, files.Keys);
    r := WriteAll(disk, files);
    TouchedIsKept(before, owned, files.Keys, disk.nodes);
    if !r.Done? {
      return r;
    }
    ghost var written := disk.nodes;
    r := WriteManifest(disk, files.Keys);
    if r.Done? {
      IsMirrored(before, owned, files, written, disk.nodes);
    }
  }

  lemma {:induction false} Longest(keys: set<string>) returns (n: nat)
    ensures forall k :: k in keys ==> |k| <= n
  {
    n := 0;
    if keys != {} {
      var k :| k in keys;
      var m := Longest(keys - {k});
      n := if m < |k| then |k| else m;
    }
  }

  lemma RoomIsClear(before: Nodes, owned: set<string>, keys: set<string>)
    requires PreviousFiles(before) == Files(owned)
    ensures Room(before, keys) <==> Clear(before - Stale(before, owned, keys), keys)
  {
    var base := before - Stale(before, owned, keys);
    if Clear(base, keys) {
      forall f, d | f in keys && IsAncestor(d, f)
        ensures d !in keys && (d in before ==> before[d].Dir? || d in owned)
      {
        assert d in before && d !in owned ==> d in base;
      }
    }
  }

  lemma RemovedIsKept(before: Nodes, owned: set<string>, keys: set<string>, gone: set<string>)
    requires PreviousFiles(before) == Files(owned) && gone <= Stale(before, owned, keys)
    ensures Kept(before, before - gone) && OnlyAdded(before, before - gone, keys)
    ensures ManifestAsBefore(before, before - gone)
  {
  }

  lemma TouchedIsKept(before: Nodes, owned: set<string>, keys: set<string>, after: Nodes)
    requires Tree(before) && PreviousFiles(before) == Files(owned) && "" !in keys
    requires forall k :: k in keys ==> !CollidesWithManifest(k) && Free(before, owned, k)
    requires Touched(before - Stale(before, owned, keys), after, keys)
    ensures Kept(before, after) && OnlyAdded(before, after, keys)
    ensures MANIFEST in after ==> after[MANIFEST].File?
    ensures "" in after ==> after[""].Dir?
    ensures ManifestAsBefore(before, after)
  {
    PreviousFilesAreNamed(before);
  }

  lemma IsMirrored(before: Nodes, owned: set<string>, files: map<string, string>, written: Nodes, after: Nodes)
    requires Tree(written) && PreviousFiles(before) == Files(owned)
    requires forall k :: k in files ==> !CollidesWithManifest(k)
    requires Touched(before - Stale(before, owned, files.Keys), written, files.Keys)
    requires forall k :: k in files ==> Lookup(written, k) == Some(File(files[k]))
    requires forall k :: k in written && k != MANIFEST ==> k in after && after[k] == written[k]
    requires forall k :: k in after && k !in written ==> k == MANIFEST || k == ""
    requires IsDir(after, "") && PreviousFiles(after) == Files(files.Keys)
    ensures Mirrored(before, files, after)
  {
    forall k | k != MANIFEST
      ensures Lookup(after, k) == Expected(before, files, k)
    {
      if IsFolder(files.Keys, k) {
        var f :| f in files && IsAncestor(k, f);
        assert IsDir(written, k);
      }
    }
  }

  /** After a successful run the same run is accepted again and would leave everything as it is. */
  lemma RerunChangesNothing(before: Nodes, rendered: map<string, string>, keyFor: map<string, string>,
                            files: map<string, string>, after: Nodes)
    requires rendered.Keys <= keyFor.Keys && Acceptable(before, rendered, keyFor)
    requires IsFilesOf(files, rendered, keyFor) && "" !in files && Mirrored(before, files, after) && Tree(after)
    ensures Acceptable(after, rendered, keyFor) && Room(after, files.Keys)
    ensures forall k :: k != MANIFEST ==> Expected(after, files, k) == Lookup(after, k)
  {
    forall k | k in files
      ensures Lookup(after, k) == Some(File(files[k]))
    {
      assert Lookup(after, k) == Expected(before, files, k);
    }
    forall k | k != MANIFEST
      ensures Expected(after, files, k) == Lookup(after, k)
    {
      assert Lookup(after, k) == Expected(before, files, k);
    }
  }

  /** Whatever stands at a destination is a file that the manifest of the first run found named. */
  ghost predicate NothingNew(before: Nodes, after: Nodes, keys: set<string>) {
    forall k :: k in keys && k in after ==> k in Mine(before) && after[k].File?
  }

  lemma ManifestObstructed(nodes: Nodes)
    ensures Obstructed(nodes, MANIFEST) <==> "" in nodes && !nodes[""].Dir?
  {
    ManifestIsAtTheTop();
    forall d
      ensures IsAncestor(d, MANIFEST) <==> d == ""
    {
      AncestorsOf(MANIFEST, d);
    }
  }

  lemma SameManifestSameFiles(before: Nodes, after: Nodes, keys: set<string>)
    requires Tree(before) && Kept(before, after) && OnlyAdded(before, after, keys) && "" !in keys
    requires PreviousFiles(before).Files? && Lookup(after, MANIFEST) == Lookup(before, MANIFEST)
    ensures PreviousFiles(after) == PreviousFiles(before)
  {
    PreviousFilesAreNamed(before);
    ManifestObstructed(before);
    ManifestObstructed(after);
    assert StatusOf(after, MANIFEST) == StatusOf(before, MANIFEST);
  }

  lemma RoomStays(before: Nodes, after: Nodes, keys: set<string>)
    requires Kept(before, after) && OnlyAdded(before, after, keys) && Mine(after) == Mine(before)
    requires forall k :: k in keys ==> !CollidesWithManifest(k)
    requires forall k :: k in keys && k in before ==> k in Mine(before)
    ensures Room(after, keys) <==> Room(before, keys)
  {
    forall f, d | f in keys && IsAncestor(d, f) && d !in keys
      ensures (d in after ==> after[d].Dir? || d in Mine(before)) <==> (d in before ==> before[d].Dir? || d in Mine(before))
    {
      assert d != MANIFEST;
    }
  }

  lemma FreeIffNothingNew(before: Nodes, after: Nodes, keys: set<string>)
    requires Mine(after) == Mine(before)
    ensures NothingNew(before, after, keys) <==> forall k :: k in keys ==> Free(after, Mine(after), k)
  {
  }

  /** After a run that did not finish and left the manifest as it was, the same run is accepted if and only if it left
      no file that the manifest does not name, since such a file belongs to nobody; and it has room if and only if it
      had room the first time. */
  lemma RerunAfterFailure(before: Nodes, rendered: map<string, string>, keyFor: map<string, string>, after: Nodes)
    requires rendered.Keys <= keyFor.Keys && Acceptable(before, rendered, keyFor)
    requires Tree(before) && "" !in KeySet(rendered, keyFor)
    requires Kept(before, after) && OnlyAdded(before, after, KeySet(rendered, keyFor))
    requires Lookup(after, MANIFEST) == Lookup(before, MANIFEST)
    ensures var keys := KeySet(rendered, keyFor);
            && (Acceptable(after, rendered, keyFor) <==> NothingNew(before, after, keys))
            && (Room(after, keys) <==> Room(before, keys))
  {
    var keys := KeySet(rendered, keyFor);
    SameManifestSameFiles(before, after, keys);
    assert Mine(after) == Mine(before);
    RoomStays(before, after, keys);
    FreeIffNothingNew(before, after, keys);
    assert (forall k :: k in keys ==> !CollidesWithManifest(k) && Free(after, Mine(after), k)) <==>
           (forall k :: k in keys ==> Free(after, Mine(after), k));
  }

  /** After a run that did not finish and lost a manifest that named itself, the same run is accepted if and only if
      nothing stands at a destination. */
  lemma RerunWithoutManifest(before: Nodes, rendered: map<string, string>, keyFor: map<string, string>, after: Nodes)
    requires rendered.Keys <= keyFor.Keys && Acceptable(before, rendered, keyFor)
    requires Tree(before) && "" !in KeySet(rendered, keyFor)
    requires Kept(before, after) && OnlyAdded(before, after, KeySet(rendered, keyFor)) && MANIFEST !in after
    ensures Acceptable(after, rendered, keyFor) <==> KeySet(rendered, keyFor) !! after.Keys
  {
    var keys := KeySet(rendered, keyFor);
    PreviousFilesAreNamed(before);
    ManifestObstructed(before);
    ManifestObstructed(after);
    assert PreviousFiles(after) == Files({});
    assert (forall k :: k in keys ==> !CollidesWithManifest(k) && Free(after, {}, k)) <==> keys !! after.Keys;
  }

  /** After a run that wrote all its files but could not record them, the same run is accepted if and only if the
      manifest can be read and happens to name them all. */
  lemma RerunAfterLostManifest(rendered: map<string, string>, keyFor: map<string, string>, files: map<string, string>,
                               before: Nodes, after: Nodes)
    requires rendered.Keys <= keyFor.Keys && Acceptable(before, rendered, keyFor)
    requires IsFilesOf(files, rendered, keyFor) && AllWritten(files, after)
    ensures Acceptable(after, rendered, keyFor) <==> PreviousFiles(after).Files? && files.Keys <= Mine(after)
  {
    assert files.Keys == KeySet(rendered, keyFor);
    forall k | k in files
      ensures k in after && after[k].File?
    {
      assert Lookup(after, k) == Some(File(files[k]));
    }
  }
}
