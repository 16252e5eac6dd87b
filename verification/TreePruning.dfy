/** Removing the files that an earlier run wrote and this one does not. */
module TreePruning {
  import opened FileTrees
  import Manifests

  const MANIFEST := Manifests.NAME

  // ----- what a run may touch

  /** Files that the previous run wrote and that this one does not. */
  ghost function Stale(nodes: Nodes, owned: set<string>, keys: set<string>): (s: set<string>)
    ensures forall k :: k in s <==> k in nodes && k in owned && k !in keys && !nodes[k].Dir?
  {
    set k | k in nodes && k in owned && k !in keys && !nodes[k].Dir?
  }

  ghost function StaleUnder(nodes: Nodes, owned: set<string>, keys: set<string>, prefix: string): (s: set<string>)
    ensures forall k :: k in s <==> k in Stale(nodes, owned, keys) && prefix <= k
  {
    set k | k in Stale(nodes, owned, keys) && prefix <= k
  }

  // ----- pruning

  /** `k` is an entry of the directory whose paths start with `prefix`. */
  predicate IsEntry(prefix: string, k: string) {
    prefix < k && '/' !in k[|prefix|..]
  }

  /** The entry of the directory that is `k` or leads to it. */
  lemma EntryTowards(nodes: Nodes, prefix: string, k: string) returns (entry: string)
    requires Tree(nodes) && k in nodes && prefix < k
    requires prefix == "" || prefix[|prefix| - 1] == '/'
    ensures entry in nodes && IsEntry(prefix, entry)
    ensures entry == k || (nodes[entry].Dir? && entry + "/" <= k)
  {
    assert prefix != "" ==> k[|prefix| - 1] == '/';
    assert k[|prefix|] != '/';
    var end := SlashAt(k, |prefix|);
    if end == |k| {
      entry := k;
    } else {
      entry := k[..end];
      assert entry + "/" == k[..end + 1];
      assert IsAncestor(entry, k);
      assert forall i :: |prefix| <= i < end ==> entry[i] == k[i];
    }
  }

  function SlashAt(k: string, i: nat): (e: nat)
    requires i <= |k|
    ensures i <= e <= |k| && (e < |k| ==> k[e] == '/')
    ensures forall j :: i <= j < e ==> k[j] != '/'
    decreases |k| - i
  {
    if i == |k| || k[i] == '/' then i else SlashAt(k, i + 1)
  }

  /** The stale files that are entry `e` or lie below it. */
  ghost function StaleAt(nodes: Nodes, owned: set<string>, keys: set<string>, e: string): (s: set<string>)
    ensures forall k :: k in s <==> k in Stale(nodes, owned, keys) && (k == e || e + "/" <= k)
  {
    set k | k in Stale(nodes, owned, keys) && (k == e || e + "/" <= k)
  }

  /** Everything stale is gone already or lies at or below a pending entry. */
  ghost predicate Covered(stale: set<string>, gone: set<string>, pending: set<string>) {
    forall k :: k in stale && k !in gone ==> exists e :: e in pending && (e == k || e + "/" <= k)
  }

  lemma EntriesCover(base: Nodes, gone: set<string>, stale: set<string>, prefix: string, entries: set<string>)
    requires Tree(base) && (prefix == "" || prefix[|prefix| - 1] == '/')
    requires forall k :: k in stale ==> k in base && prefix < k
    requires forall k :: k in gone && k in base ==> !base[k].Dir?
    requires forall e :: e in base && e !in gone && IsEntry(prefix, e) ==> e in entries
    ensures Covered(stale, gone, entries)
  {
    forall k | k in stale && k !in gone
      ensures exists e :: e in entries && (e == k || e + "/" <= k)
    {
      var e := EntryTowards(base, prefix, k);
      assert e in entries;
    }
  }

  lemma OneEntryLess(stale: set<string>, gone: set<string>, at: set<string>, pending: set<string>, e: string)
    requires Covered(stale, gone, pending)
    requires forall k :: k in stale && (k == e || e + "/" <= k) ==> k in at
    ensures Covered(stale, gone + at, pending - {e})
  {
    forall k | k in stale && k !in gone + at
      ensures exists e' :: e' in pending - {e} && (e' == k || e' + "/" <= k)
    {
      var e' :| e' in pending && (e' == k || e' + "/" <= k);
      assert e' in pending - {e};
    }
  }

  lemma StaleIsInside(base: Nodes, owned: set<string>, keys: set<string>, dir: string)
    requires Tree(base) && "" !in owned
    ensures forall k :: k in StaleUnder(base, owned, keys, Inside(dir)) ==> k in base && Inside(dir) < k
    ensures dir !in base ==> StaleUnder(base, owned, keys, Inside(dir)) == {}
  {
    forall k | k in StaleUnder(base, owned, keys, Inside(dir))
      ensures k in base && Inside(dir) < k && dir in base
    {
      assert k[|k| - 1] != '/' && (dir != "" ==> Inside(dir)[|dir|] == '/');
      if dir != k {
        assert IsAncestor(dir, k);
      }
    }
  }

  lemma EntryInside(base: Nodes, owned: set<string>, keys: set<string>, prefix: string, e: string)
    requires IsEntry(prefix, e)
    ensures StaleAt(base, owned, keys, e) <= StaleUnder(base, owned, keys, prefix)
    ensures forall k :: k in StaleAt(base, owned, keys, e) && IsEntry(prefix, k) ==> k == e
  {
    forall k | k in StaleAt(base, owned, keys, e)
      ensures prefix <= k && (IsEntry(prefix, k) ==> k == e)
    {
      if k != e {
        assert prefix == e[..|prefix|] == (e + "/")[..|prefix|] == k[..|prefix|];
        assert k[|prefix|..][|e| - |prefix|] == k[|e|] == (e + "/")[|e|] == '/';
      }
    }
  }

  /** `base` is the tree before pruning and `gone` what has been removed from it so far. */
  ghost predicate Pruning(nodes: Nodes, owned: set<string>, keys: set<string>, base: Nodes, gone: set<string>,
                          longest: nat)
  {
    && Tree(base) && nodes == base - gone && gone <= Stale(base, owned, keys) && "" !in owned
    && forall k :: k in base ==> |k| <= longest
  }

  /** Removes the stale files below directory `dir` and nothing else. */
  method PruneDirectory(disk: FileSystem, dir: string, owned: set<string>, keys: set<string>,
                        ghost base: Nodes, ghost gone: set<string>, ghost longest: nat)
    returns (ok: bool, ghost gone': set<string>)
    requires Pruning(disk.nodes, owned, keys, base, gone, longest) && |Inside(dir)| <= longest + 1
    requires dir in base ==> base[dir].Dir?
    modifies disk
    ensures Pruning(disk.nodes, owned, keys, base, gone', longest)
    ensures gone <= gone' <= gone + StaleUnder(base, owned, keys, Inside(dir))
    ensures ok ==> gone' == gone + StaleUnder(base, owned, keys, Inside(dir))
    ensures !disk.faulty ==> ok
    decreases longest + 1 - |Inside(dir)|, 1
  {
    ghost var stale := StaleUnder(base, owned, keys, Inside(dir));
    gone' := gone;
    if owned == {} {
      assert stale == {};
      return true, gone;
    }
    var fault := disk.Fault();
    if fault {
      return false, gone;
    }
    StaleIsInside(base, owned, keys, dir);
    if dir !in disk.nodes {
      return true, gone;
    }
    var pending := set k | k in disk.nodes && IsEntry(Inside(dir), k);
    EntriesCover(base, gone, stale, Inside(dir), pending);
    while pending != {}
      invariant Pruning(disk.nodes, owned, keys, base, gone', longest) && gone <= gone' <= gone + stale
      invariant forall e :: e in pending ==> e in base && e !in gone' && IsEntry(Inside(dir), e)
      invariant Covered(stale, gone', pending)
    {
      var e :| e in pending;
      ghost var at := StaleAt(base, owned, keys, e);
      EntryInside(base, owned, keys, Inside(dir), e);
      OneEntryLess(stale, gone', at, pending, e);
      ok, gone' := PruneEntry(disk, e, owned, keys, base, gone', longest);
      var more := disk.Fault();
      if !ok || more {
        return false, gone';
      }
      pending := pending - {e};
    }
    ok := true;
  }

  method PruneEntry(disk: FileSystem, e: string, owned: set<string>, keys: set<string>,
                    ghost base: Nodes, ghost gone: set<string>, ghost longest: nat)
    returns (ok: bool, ghost gone': set<string>)
    requires Pruning(disk.nodes, owned, keys, base, gone, longest) && e in base && e !in gone && e != ""
    modifies disk
    ensures Pruning(disk.nodes, owned, keys, base, gone', longest)
    ensures gone <= gone' <= gone + StaleAt(base, owned, keys, e)
    ensures ok ==> gone' == gone + StaleAt(base, owned, keys, e)
    ensures !disk.faulty ==> ok
    decreases longest + 1 - |e|, 0
  {
    gone' := gone;
    var status := disk.Stat(e);
    if status.Unreadable? {
      return false, gone;
    }
    if status.node.Dir? {
      var has := Manifests.HasOwnedPrefix(owned, e + "/");
      if has {
        ok, gone' := PruneDirectory(disk, e, owned, keys, base, gone, longest);
      } else {
        ok := true;
      }
      assert StaleAt(base, owned, keys, e) == StaleUnder(base, owned, keys, Inside(e));
    } else {
      ok := true;
      if e in owned && e !in keys {
        ok := disk.Remove(e);
        if ok {
          gone' := gone + {e};
        }
      }
      OnlyItself(base, owned, keys, e);
    }
  }

  lemma OnlyItself(base: Nodes, owned: set<string>, keys: set<string>, e: string)
    requires Tree(base) && e in base && e != "" && !base[e].Dir?
    ensures StaleAt(base, owned, keys, e) == if e in owned && e !in keys then {e} else {}
  {
    forall k | k in StaleAt(base, owned, keys, e)
      ensures k == e
    {
      if k != e {
        assert IsAncestor(e, k);
      }
    }
  }

  // ----- the previous manifest

  datatype Previous = Unusable | Files(owned: set<string>)

  /** An absent manifest owns nothing; anything else that is not a well-formed manifest file is refused. */
  function PreviousFiles(nodes: Nodes): Previous {
    match StatusOf(nodes, MANIFEST)
    case Missing => Files({})
    case Found(File(text)) => (
      match Manifests.Owned(text)
      case None => Unusable
      case Some(owned) => Files(owned))
    case _ => Unusable
  }

  method ReadOwnershipManifest(disk: FileSystem) returns (r: Previous)
    ensures r == PreviousFiles(disk.nodes) || (disk.faulty && r.Unusable?)
  {
    var status := disk.Stat(MANIFEST);
    if status.Missing? {
      return Files({});
    }
    if !status.Found? || !status.node.File? {
      return Unusable;
    }
    var text := disk.ReadFile(MANIFEST);
    if text.None? {
      return Unusable;
    }
    var owned := Manifests.ReadManifest(text.value);
    return if owned.None? then Unusable else Files(owned.value);
  }

  lemma PreviousFilesAreNamed(nodes: Nodes)
    requires Tree(nodes)
    ensures PreviousFiles(nodes).Files? ==> "" !in PreviousFiles(nodes).owned && (IsDir(nodes, "") || "" !in nodes)
  {
    assert IsAncestor("", MANIFEST);
    if MANIFEST in nodes && nodes[MANIFEST].File? && Manifests.Owned(nodes[MANIFEST].bytes).Some? {
      var text := nodes[MANIFEST].bytes;
      var keys := Manifests.KeysAreLines(text[|Manifests.HEADER|..]);
    }
  }
}
