/** The state directory and its migration: one authority, a copy that is verified
    before it is published by a rename, and writers that choose their directory
    under the same lock.

    Models `inspect_state_layout_details`, `state_dir` and `state_write_scope` of
    core/state_layout.py and `_migrate_with_layout_lock`, `_copy_verify_publish`,
    `_recover_orphan_staging` and `_remove_owned_staging` of core/state_migration.py
    on a case-sensitive file system. The lock is assumed to exclude, and a crash to
    release it.
  */
module Migration {
  import opened Common
  import opened Ordering
  import Decimals

  datatype Node = Folder | File(content: string)

  /** A state directory's entries by relative path, its marker apart. */
  type Tree = map<string, Node>

  datatype Phase = Copying | Published

  /** `matches`: schema, root, source and target are those of this project. */
  datatype Marker = Marker(id: string, pid: nat, phase: Phase, matches: bool, manifest: Tree)

  /** What stands at a path of the project root. Invalid: a link or no directory. */
  datatype Slot = Absent | Invalid | Dir(tree: Tree, marker: Option<Marker>)

  datatype Root = Root(legacy: Slot, target: Slot, staging: map<string, Slot>)

  datatype Layout = Empty | Legacy | Native | Migrated | Migrating | Conflict

  datatype Place = AtLegacy | AtTarget

  // ----- Transient paths and manifests --------------------------------------

  const MARKER_NAME := ".smtw-migration.json"

  predicate EndsWith(s: string, suffix: string) {
    |s| >= |suffix| && s[|s| - |suffix|..] == suffix
  }

  /** The last component of a path. */
  function Name(path: string): string {
    if '/' !in path then path else
      if path[|path| - 1] == '/' then "" else Name(path[..|path| - 1]) + [path[|path| - 1]]
  }

  /** `_is_transient_manifest_path`. */
  predicate IsTransient(path: string) {
    || path in {"config.json", MARKER_NAME}
    || Name(path) in {"ledger.guard", "ledger.lock"}
    || EndsWith(Name(path), ".guard") || EndsWith(Name(path), ".lock") || EndsWith(Name(path), ".tmp")
  }

  /** Left out of manifests: transient, or below something transient. */
  predicate Hidden(path: string) {
    IsTransient(path) || exists i | 0 <= i < |path| :: path[i] == '/' && IsTransient(path[..i])
  }

  /** The entries of `build_state_manifest`, contents standing for their hashes. */
  function Manifest(t: Tree): Tree {
    map p | p in t && !Hidden(p) :: t[p]
  }

  lemma LockIsHidden()
    ensures Hidden("ledger.lock")
  {
    assert Name("ledger.lock") == "ledger.lock";
  }

  lemma HiddenWrite(t: Tree, path: string, n: Node)
    requires Hidden(path)
    ensures Manifest(t[path := n]) == Manifest(t) && Manifest(t - {path}) == Manifest(t)
  {
  }

  // ----- The layout ---------------------------------------------------------

  predicate SealsAuthority(m: Marker) {
    m.phase.Published? && m.matches
  }

  /** `inspect_state_layout_details`. */
  function Inspect(r: Root): Layout {
    if r.target.Invalid? then Conflict
    else if r.target.Dir? && r.target.marker.Some? then
      (if SealsAuthority(r.target.marker.value) then Migrated else Conflict)
    else if r.legacy.Invalid? || exists n | n in r.staging :: r.staging[n].Invalid? then Conflict
    else if r.target.Dir? then (if r.legacy.Dir? || r.staging != map[] then Conflict else Native)
    else if r.staging != map[] then (if r.legacy.Dir? then Migrating else Conflict)
    else if r.legacy.Dir? then Legacy
    else Empty
  }

  /** `state_dir`; None is its error. */
  function Authority(r: Root): Option<Place> {
    match Inspect(r)
    case Empty => Some(AtTarget)
    case Native => Some(AtTarget)
    case Migrated => Some(AtTarget)
    case Legacy => Some(AtLegacy)
    case Migrating => Some(AtLegacy)
    case Conflict => None
  }

  function TreeOf(s: Slot): Tree {
    if s.Dir? then s.tree else map[]
  }

  /** The authoritative entries. */
  function StateOf(r: Root): Tree {
    match Authority(r)
    case Some(AtLegacy) => TreeOf(r.legacy)
    case Some(AtTarget) => TreeOf(r.target)
    case None => map[]
  }

  function WithEntry(s: Slot, path: string, n: Option<Node>): Slot {
    var tree := TreeOf(s);
    Dir(if n.Some? then tree[path := n.value] else tree - {path}, if s.Dir? then s.marker else None)
  }

  /** A writer's change inside `state_write_scope`: the directory is chosen, and
      created if missing, under the lock. */
  function Written(r: Root, path: string, n: Option<Node>): Root {
    match Authority(r)
    case Some(AtLegacy) => r.(legacy := WithEntry(r.legacy, path, n))
    case Some(AtTarget) => r.(target := WithEntry(r.target, path, n))
    case None => r
  }

  // ----- Staging ------------------------------------------------------------

  function StagingName(pid: nat, id: string): string {
    ".smtw.migrating-" + Decimals.Decimal(pid) + "-" + id
  }

  /** `_recover_orphan_staging` gives a directory up: its marker is the one its
      name says, and its owner is known to be dead for long enough. */
  predicate Orphaned(name: string, slot: Slot, dead: set<string>) {
    && slot.Dir? && slot.marker.Some?
    && var m := slot.marker.value;
       m.id != "" && m.pid > 0 && m.matches && name == StagingName(m.pid, m.id) && name in dead
  }

  /** The staging directories after the orphans among the names are removed. */
  function Pruned(staging: map<string, Slot>, names: seq<string>, dead: set<string>): (r: map<string, Slot>)
    ensures forall n :: n in r <==> n in staging && !(n in names && Orphaned(n, staging[n], dead))
    ensures forall n | n in r :: r[n] == staging[n]
  {
    if names == [] then staging else
      var prior := Pruned(staging, names[..|names| - 1], dead);
      var last := names[|names| - 1];
      if last in staging && Orphaned(last, staging[last], dead) then prior - {last} else prior
  }

  function WithoutOrphans(r: Root, dead: set<string>): Root {
    r.(staging := Pruned(r.staging, Sorted(r.staging.Keys), dead))
  }

  // ----- One migration attempt ----------------------------------------------

  /** The directories of a manifest. */
  function FoldersOf(manifest: Tree, paths: seq<string>): (r: Tree)
    ensures forall p :: p in r <==> p in paths && p in manifest && manifest[p].Folder?
    ensures forall p | p in r :: r[p] == Folder
  {
    if paths == [] then map[] else
      var prior := FoldersOf(manifest, paths[..|paths| - 1]);
      var last := paths[|paths| - 1];
      if last in manifest && manifest[last].Folder? then prior[last := Folder] else prior
  }

  function FilesAdded(tree: Tree, manifest: Tree, paths: seq<string>): (r: Tree)
    ensures forall p :: p in r <==> p in tree || (p in paths && p in manifest && manifest[p].File?)
    ensures forall p | p in r :: r[p] == if p in paths && p in manifest && manifest[p].File? then manifest[p] else tree[p]
  {
    if paths == [] then tree else
      var prior := FilesAdded(tree, manifest, paths[..|paths| - 1]);
      var last := paths[|paths| - 1];
      if last in manifest && manifest[last].File? then prior[last := manifest[last]] else prior
  }

  lemma CopiesAll(manifest: Tree, paths: seq<string>)
    requires Elements(paths) == manifest.Keys
    ensures FilesAdded(FoldersOf(manifest, paths), manifest, paths) == manifest
  {
    var all := Elements(paths);
    assert forall p :: p in paths <==> p in all;
  }

  /** What happens around a step: an outsider that does not take the lock may
      leave other entries in the legacy directory, and the step may fail. */
  datatype Weather = Weather(legacy: Option<Tree>, fails: bool)

  /** A durable state, and the legacy directory as outsiders last left it. */
  datatype Seen = Seen(root: Root, outside: Tree)

  /** What an attempt may leave at any moment: the legacy entries that count are
      as outsiders left them; every other staging directory is untouched; and the
      target is as before, or the attempt's own staging directory was renamed to
      it, holding exactly the legacy manifest. */
  ghost predicate Attempted(before: Root, s: Seen, name: string) {
    var after := s.root;
    && after.legacy.Dir? && Manifest(after.legacy.tree) == Manifest(s.outside)
    && after.staging - {name} == before.staging
    && (name in after.staging ==> after.staging[name].Dir?)
    && (after.target == before.target || PublishedAs(before, s, name))
  }

  ghost predicate PublishedAs(before: Root, s: Seen, name: string) {
    && before.target.Absent? && name !in s.root.staging
    && s.root.target.Dir? && Manifest(s.root.target.tree) == Manifest(s.outside)
    && s.root.target.marker.Some? && SealsAuthority(s.root.target.marker.value)
    && s.root.target.marker.value.manifest == Manifest(s.outside)
  }

  datatype Status = Done | AlreadyMigrated | NotNeeded | Refused | Deferred | Failed

  class ProjectRoot {
    var legacy: Slot
    var target: Slot
    var staging: map<string, Slot>
    var clock: nat
    ghost var outside: Tree
    ghost var trace: seq<Seen>

    ghost function Value(): Root
      reads this
    {
      Root(legacy, target, staging)
    }

    constructor (root: Root)
      ensures Value() == root
    {
      legacy, target, staging, clock := root.legacy, root.target, root.staging, 0;
      outside, trace := TreeOf(root.legacy), [];
    }

    ghost predicate Undisturbed()
      reads this
    {
      legacy.Dir? && Manifest(legacy.tree) == Manifest(outside)
    }

    /** Every state recorded since the attempt began is one it may leave. */
    ghost predicate TraceOk(before: Root, name: string)
      reads this
    {
      forall s | s in trace :: Attempted(before, s, name)
    }

    ghost method Note()
      modifies this`trace
      ensures trace == old(trace) + [Seen(Value(), outside)]
    {
      trace := trace + [Seen(Value(), outside)];
    }

    /** Time passes before a step. */
    method Pass(env: nat -> Weather) returns (failed: bool)
      requires Undisturbed()
      modifies this`legacy, this`outside, this`clock
      ensures Undisturbed() && clock == old(clock) + 1 && failed == env(old(clock)).fails
      ensures env(old(clock)).legacy.None? ==> legacy == old(legacy) && outside == old(outside)
    {
      var weather := env(clock);
      clock := clock + 1;
      if weather.legacy.Some? {
        legacy := legacy.(tree := weather.legacy.value);
        outside := weather.legacy.value;
      }
      return weather.fails;
    }

    /** One durable change of the attempt's own staging directory. */
    method Stage(slot: Slot, name: string, ghost before: Root)
      requires Undisturbed() && TraceOk(before, name) && slot.Dir?
      requires target == before.target && staging - {name} == before.staging
      modifies this`staging, this`trace
      ensures TraceOk(before, name) && staging == old(staging)[name := slot]
      ensures staging - {name} == before.staging
    {
      staging := staging[name := slot];
      Note();
    }

    method CopyFolders(manifest: Tree, paths: seq<string>, name: string, ghost before: Root)
      requires Undisturbed() && TraceOk(before, name)
      requires target == before.target && staging - {name} == before.staging
      requires name in staging && staging[name].Dir? && staging[name].tree == map[]
      modifies this`staging, this`trace
      ensures TraceOk(before, name) && staging - {name} == before.staging
      ensures name in staging
      ensures staging[name] == Dir(FoldersOf(manifest, paths), old(staging[name].marker))
    {
      var marker := staging[name].marker;
      var tree: Tree := map[];
      for n := 0 to |paths|
        invariant tree == FoldersOf(manifest, paths[..n])
        invariant TraceOk(before, name) && staging - {name} == before.staging
        invariant name in staging && staging[name] == Dir(tree, marker)
      {
        assert paths[..n + 1][..n] == paths[..n];
        if paths[n] in manifest && manifest[paths[n]].Folder? {
          tree := tree[paths[n] := Folder];
          Stage(Dir(tree, marker), name, before);
        }
      }
      assert paths[..|paths|] == paths;
    }

    method CopyFiles(manifest: Tree, paths: seq<string>, name: string, env: nat -> Weather, ghost before: Root)
      returns (failed: bool)
      requires Undisturbed() && TraceOk(before, name)
      requires target == before.target && staging - {name} == before.staging
      requires name in staging && staging[name].Dir?
      modifies this`legacy, this`staging, this`clock, this`outside, this`trace
      ensures Undisturbed() && TraceOk(before, name) && staging - {name} == before.staging
      ensures name in staging && staging[name].Dir?
      ensures Quiet(env) ==> legacy == old(legacy) && outside == old(outside)
      ensures Quiet(env) && manifest == Manifest(old(legacy.tree)) ==>
        !failed && staging[name].tree == FilesAdded(old(staging[name].tree), manifest, paths)
    {
      var marker, start := staging[name].marker, staging[name].tree;
      var tree := start;
      for n := 0 to |paths|
        invariant Undisturbed() && TraceOk(before, name) && staging - {name} == before.staging
        invariant name in staging && staging[name] == Dir(tree, marker)
        invariant Quiet(env) ==> legacy == old(legacy) && outside == old(outside)
        invariant Quiet(env) && manifest == Manifest(old(legacy.tree)) ==> tree == FilesAdded(start, manifest, paths[..n])
      {
        assert paths[..n + 1][..n] == paths[..n];
        var path := paths[n];
        if path in manifest && manifest[path].File? {
          failed := Pass(env);
          if failed || path !in legacy.tree || !legacy.tree[path].File? {
            return true;
          }
          tree := tree[path := legacy.tree[path]];
          Stage(Dir(tree, marker), name, before);
        }
      }
      assert paths[..|paths|] == paths;
      return false;
    }

    /** `_copy_manifest_entries`: directories first, then files as they are read. */
    method CopyEntries(manifest: Tree, name: string, env: nat -> Weather, ghost before: Root) returns (failed: bool)
      requires Undisturbed() && TraceOk(before, name)
      requires target == before.target && staging - {name} == before.staging
      requires name in staging && staging[name].Dir? && staging[name].tree == map[]
      modifies this`legacy, this`staging, this`clock, this`outside, this`trace
      ensures Undisturbed() && TraceOk(before, name) && staging - {name} == before.staging
      ensures name in staging && staging[name].Dir?
      ensures Quiet(env) && manifest == Manifest(old(legacy.tree)) ==>
        !failed && staging[name].tree == manifest && legacy == old(legacy) && outside == old(outside)
    {
      var paths := Sorted(manifest.Keys);
      CopyFolders(manifest, paths, name, before);
      failed := CopyFiles(manifest, paths, name, env, before);
      CopiesAll(manifest, paths);
    }

    /** A manifest of the legacy directory, taken after some time has passed. */
    method SourceStill(manifest: Tree, env: nat -> Weather) returns (same: bool)
      requires Undisturbed()
      modifies this`legacy, this`clock, this`outside
      ensures Undisturbed()
      ensures same ==> Manifest(outside) == manifest
      ensures Quiet(env) && Manifest(old(legacy.tree)) == manifest ==> same && legacy == old(legacy) && outside == old(outside)
    {
      var failed := Pass(env);
      same := !failed && Manifest(legacy.tree) == manifest;
    }

    /** `_remove_owned_staging`; `removable` is false when the removal fails. */
    method RemoveOwnedStaging(name: string, removable: bool, ghost before: Root)
      requires Undisturbed() && TraceOk(before, name)
      requires target == before.target && staging - {name} == before.staging && name !in before.staging
      requires name in staging ==> staging[name].Dir?
      modifies this`staging, this`trace
      ensures TraceOk(before, name) && staging - {name} == before.staging
      ensures removable ==> staging == before.staging
      ensures name in staging ==> staging[name].Dir?
    {
      if removable {
        staging := staging - {name};
      }
      Note();
    }

    /** `_copy_verify_publish`: copy, compare, mark, look at the source twice more,
        rename. */
    method CopyVerifyPublish(id: string, pid: nat, env: nat -> Weather, removable: bool) returns (published: bool)
      requires Undisturbed() && trace == [] && StagingName(pid, id) !in staging
      modifies this
      ensures TraceOk(old(Value()), StagingName(pid, id))
      ensures Attempted(old(Value()), Seen(Value(), outside), StagingName(pid, id))
      ensures published ==> PublishedAs(old(Value()), Seen(Value(), outside), StagingName(pid, id))
      ensures !published ==> target == old(target) && (removable ==> staging == old(staging))
      ensures Quiet(env) && old(target).Absent? ==> published
    {
      ghost var before := Value();
      var name := StagingName(pid, id);
      assert staging - {name} == before.staging;
      published := Publish(id, pid, name, env, before);
      if !published {
        RemoveOwnedStaging(name, removable, before);
      }
    }

    method Publish(id: string, pid: nat, name: string, env: nat -> Weather, ghost before: Root) returns (published: bool)
      requires Undisturbed() && before == Value() && trace == [] && name !in staging
      modifies this
      ensures Undisturbed() && TraceOk(before, name)
      ensures published ==> PublishedAs(before, Seen(Value(), outside), name) && staging == before.staging
      ensures !published ==> target == before.target && staging - {name} == before.staging
      ensures name in staging ==> staging[name].Dir?
      ensures Quiet(env) && before.target.Absent? ==> published
    {
      assert staging - {name} == before.staging;
      var failed := Pass(env);
      if failed {
        return false;
      }
      var manifest := Manifest(legacy.tree);
      var copying := Marker(id, pid, Copying, true, manifest);
      Stage(Dir(map[], None), name, before);
      Stage(Dir(map[], Some(copying)), name, before);
      failed := CopyEntries(manifest, name, env, before);
      if failed || Manifest(staging[name].tree) != manifest {
        return false;
      }
      var still := SourceStill(manifest, env);
      if !still {
        return false;
      }
      Stage(Dir(staging[name].tree, Some(copying.(phase := Published))), name, before);
      still := SourceStill(manifest, env);
      if !still {
        return false;
      }
      still := SourceStill(manifest, env);
      if !still || !target.Absent? {
        return false;
      }
      target, staging := staging[name], staging - {name};
      Note();
      return true;
    }

    method Prune(names: seq<string>, dead: set<string>)
      modifies this`staging
      ensures staging == Pruned(old(staging), names, dead)
    {
      var found := staging;
      for n := 0 to |names|
        invariant staging == Pruned(found, names[..n], dead)
      {
        assert names[..n + 1][..n] == names[..n];
        var name := names[n];
        if name in found && Orphaned(name, found[name], dead) {
          staging := staging - {name};
        }
      }
      assert names[..|names|] == names;
    }

    /** `_recover_orphan_staging`. */
    method RecoverOrphans(dead: set<string>)
      modifies this`staging
      ensures Value() == WithoutOrphans(old(Value()), dead)
    {
      Prune(Sorted(staging.Keys), dead);
    }

    /** `_migrate_with_layout_lock`. `calm` tells whether the legacy ledger has no
        active turn when looked at first and, under its own lock, again. */
    method MigrateLocked(
        id: string, pid: nat, dead: set<string>, calm: (bool, bool), lockFree: bool, env: nat -> Weather, removable: bool)
      returns (status: Status)
      requires StagingName(pid, id) !in staging && trace == [] && outside == TreeOf(legacy)
      modifies this
      ensures status.Done? ==> Inspect(Value()) == Migrated && Manifest(target.tree) == Manifest(outside)
      ensures !status.Done? ==> target == old(target)
      ensures legacy.Dir? <==> old(legacy.Dir?)
      ensures legacy.Dir? ==> Manifest(legacy.tree) == Manifest(outside)
      ensures TraceOk(WithoutOrphans(old(Value()), dead), StagingName(pid, id))
      ensures forall n | n in WithoutOrphans(old(Value()), dead).staging :: n in staging && staging[n] == old(staging)[n]
      ensures old(Startable(Value())) && calm == (true, true) && lockFree && Quiet(env) ==> status.Done?
    {
      RecoverOrphans(dead);
      ghost var recovered := Value();
      match Inspect(Root(legacy, target, staging)) {
        case Migrated => return AlreadyMigrated;
        case Empty => return NotNeeded;
        case Native => return NotNeeded;
        case Conflict => return Refused;
        case _ =>
      }
      if !calm.0 || !lockFree {
        return Deferred;
      }
      LockIsHidden();
      HiddenWrite(legacy.tree, "ledger.lock", File("owner"));
      legacy := legacy.(tree := legacy.tree["ledger.lock" := File("owner")]);
      if !calm.1 {
        HiddenWrite(legacy.tree, "ledger.lock", Folder);
        legacy := legacy.(tree := legacy.tree - {"ledger.lock"});
        return Deferred;
      }
      var published := CopyVerifyPublish(id, pid, env, removable);
      assert forall n | n in recovered.staging :: n in staging - {StagingName(pid, id)};
      HiddenWrite(legacy.tree, "ledger.lock", Folder);
      legacy := legacy.(tree := legacy.tree - {"ledger.lock"});
      status := if published then Done else Failed;
    }
  }

  /** A legacy directory to migrate, no target yet, and whatever plain staging
      directories earlier attempts left behind. */
  ghost predicate Startable(r: Root) {
    r.legacy.Dir? && r.target.Absent? && forall n | n in r.staging :: r.staging[n].Dir?
  }

  /** No outsider interferes and no step fails. */
  ghost predicate Quiet(env: nat -> Weather) {
    forall n :: env(n) == Weather(None, false)
  }
}
