/** Whole runs of writers and migrators under the layout lock, with crashes. */
module MigrationRuns {
  import opened Common
  import opened Migration
  import Runs

  /** `Attempt` ends in any state a migration attempt may leave, by finishing or by
      a crash; `Recover` gives up orphaned staging directories; `Partial` is a
      removal that stopped half way; `Outsider` changes the legacy directory
      without the lock. */
  datatype Step =
    | Write(path: string, entry: Option<Node>)
    | Attempt(name: string, after: Root)
    | Recover(dead: set<string>)
    | Partial(name: string, left: Slot)
    | Outsider(tree: Tree)

  ghost predicate Follows(r: Root, s: Step, next: Root) {
    match s
    case Write(path, entry) => path != MARKER_NAME && Authority(r).Some? && next == Written(r, path, entry)
    case Attempt(name, after) =>
      && next == after && Inspect(r) in {Legacy, Migrating} && r.legacy.Dir? && name !in r.staging
      && Attempted(r, Seen(after, r.legacy.tree), name)
    case Recover(dead) => next == WithoutOrphans(r, dead)
    case Partial(name, left) => name in r.staging && left.Dir? && next == r.(staging := r.staging[name := left])
    case Outsider(tree) => r.legacy.Dir? && next == r.(legacy := r.legacy.(tree := tree))
  }

  ghost predicate Cooperative(s: Step) {
    !s.Outsider?
  }

  /** No conflict: an unmarked target stands alone, a marked one is sealed, and
      staging directories stand beside a legacy directory or a sealed target. */
  ghost predicate Sane(r: Root) {
    && !r.legacy.Invalid? && !r.target.Invalid? && (forall n | n in r.staging :: r.staging[n].Dir?)
    && (r.target.Dir? && r.target.marker.Some? ==> SealsAuthority(r.target.marker.value))
    && (r.target.Dir? && r.target.marker.None? ==> r.legacy.Absent? && r.staging == map[])
    && (r.target.Absent? && r.staging != map[] ==> r.legacy.Dir?)
  }

  /** The visible entries that successful writes should have left. */
  function Noted(expected: Tree, s: Step): Tree {
    if s.Write? && !Hidden(s.path) then
      (if s.entry.Some? then expected[s.path := s.entry.value] else expected - {s.path})
    else expected
  }

  function NotedAll(expected: Tree, steps: seq<Step>): Tree {
    if steps == [] then expected else Noted(NotedAll(expected, steps[..|steps| - 1]), steps[|steps| - 1])
  }

  /** A project without state, with a legacy directory, or with a native one. */
  lemma StartsSane(legacy: Tree, native: Tree)
    ensures Sane(Root(Absent, Absent, map[]))
    ensures Sane(Root(Dir(legacy, None), Absent, map[])) && Sane(Root(Absent, Dir(native, None), map[]))
  {
  }

  /** What an undisturbed migrator leaves behind, wherever it stops, is a step. */
  lemma TraceIsAttempt(r: Root, s: Seen, name: string)
    requires Inspect(r) in {Legacy, Migrating} && name !in r.staging && Manifest(s.outside) == Manifest(TreeOf(r.legacy))
    requires Attempted(r, s, name)
    ensures Follows(r, Attempt(name, s.root), s.root)
  {
  }

  lemma SaneHasAuthority(r: Root)
    requires Sane(r)
    ensures Authority(r).Some?
  {
  }

  lemma WrittenManifest(t: Tree, path: string, n: Node)
    requires !Hidden(path)
    ensures Manifest(t[path := n]) == Manifest(t)[path := n] && Manifest(t - {path}) == Manifest(t) - {path}
  {
  }

  lemma WriteStep(r: Root, path: string, entry: Option<Node>)
    requires Sane(r)
    ensures Sane(Written(r, path, entry)) && Authority(Written(r, path, entry)) == Authority(r)
    ensures Manifest(StateOf(Written(r, path, entry))) == Noted(Manifest(StateOf(r)), Write(path, entry))
  {
    var n := if entry.Some? then entry.value else Folder;
    if Hidden(path) {
      HiddenWrite(StateOf(r), path, n);
    } else {
      WrittenManifest(StateOf(r), path, n);
    }
  }

  /** An attempt either leaves the legacy directory in authority, or moves the
      authority to a target with the same visible entries. */
  lemma AttemptStep(r: Root, name: string, after: Root)
    requires Sane(r) && Follows(r, Attempt(name, after), after)
    ensures Sane(after) && Manifest(StateOf(after)) == Manifest(StateOf(r))
    ensures Authority(r) == Some(AtLegacy)
    ensures Authority(after) == Some(AtTarget) <==> after.target != r.target
    ensures after.target != r.target ==> Inspect(after) == Migrated
  {
    assert r.target.Absent?;
    forall n | n in after.staging ensures after.staging[n].Dir? {
      if n != name {
        assert n in after.staging - {name};
      }
    }
  }

  /** Fewer staging directories change neither the authority nor its entries. */
  lemma FewerStaging(r: Root, kept: map<string, Slot>)
    requires Sane(r) && forall n | n in kept :: n in r.staging && kept[n] == r.staging[n]
    ensures Sane(r.(staging := kept)) && StateOf(r.(staging := kept)) == StateOf(r)
  {
    if r.staging == map[] {
      assert kept == map[];
    }
  }

  lemma RecoverStep(r: Root, dead: set<string>)
    requires Sane(r)
    ensures Sane(WithoutOrphans(r, dead)) && StateOf(WithoutOrphans(r, dead)) == StateOf(r)
  {
    FewerStaging(r, WithoutOrphans(r, dead).staging);
  }

  lemma PartialStep(r: Root, name: string, left: Slot)
    requires Sane(r) && name in r.staging && left.Dir?
    ensures var next := r.(staging := r.staging[name := left]);
      Sane(next) && StateOf(next) == StateOf(r)
  {
    var next := r.(staging := r.staging[name := left]);
    assert name in next.staging;
  }

  ghost predicate Holds(r: Root, expected: Tree) {
    Sane(r) && Manifest(StateOf(r)) == expected
  }

  lemma StepHolds(r: Root, s: Step, next: Root, expected: Tree)
    requires Holds(r, expected) && Follows(r, s, next) && Cooperative(s)
    ensures Holds(next, Noted(expected, s))
  {
    match s {
      case Write(path, entry) => WriteStep(r, path, entry);
      case Attempt(name, after) => AttemptStep(r, name, after);
      case Recover(dead) => RecoverStep(r, dead);
      case Partial(name, left) => PartialStep(r, name, left);
    }
  }

  /** At every point of every run of cooperating writers, migrators and crashes
      there is one authority, and its visible entries are exactly those that the
      successful writes left. */
  lemma {:induction false} EveryWriteIsKept(rs: seq<Root>, steps: seq<Step>, n: nat)
    requires |rs| == |steps| + 1 && n <= |steps| && Sane(rs[0])
    requires forall i | 0 <= i < |steps| :: Follows(rs[i], steps[i], rs[i + 1]) && Cooperative(steps[i])
    ensures Sane(rs[n]) && Authority(rs[n]).Some?
    ensures Manifest(StateOf(rs[n])) == NotedAll(Manifest(StateOf(rs[0])), steps[..n])
    decreases n
  {
    if n > 0 {
      EveryWriteIsKept(rs, steps, n - 1);
      assert Follows(rs[n - 1], steps[n - 1], rs[n - 1 + 1]);
      assert steps[..n][..n - 1] == steps[..n - 1];
      StepHolds(rs[n - 1], steps[n - 1], rs[n], NotedAll(Manifest(StateOf(rs[0])), steps[..n - 1]));
    }
    SaneHasAuthority(rs[n]);
  }

  // ----- One way ------------------------------------------------------------

  ghost predicate IsMigrated(r: Root) {
    Inspect(r) == Migrated
  }

  /** Once migrated, always migrated: no step of any writer, migrator or outsider
      brings the legacy directory back into authority. */
  lemma MigratedForever(rs: seq<Root>, steps: seq<Step>, m: nat, n: nat)
    requires |rs| == |steps| + 1 && m <= n <= |steps| && IsMigrated(rs[m])
    requires forall i | 0 <= i < |steps| :: Follows(rs[i], steps[i], rs[i + 1])
    ensures IsMigrated(rs[n]) && Authority(rs[n]) == Some(AtTarget)
  {
    forall r, s, next | IsMigrated(r) && Follows(r, s, next) ensures IsMigrated(next) {
    }
    Runs.Invariance(rs, steps, Follows, s => true, IsMigrated, m, n);
  }

  // ----- Leftovers of crashed attempts --------------------------------------

  /** An attempt publishes only the staging directory it made itself: every one it
      found is still there, as it was. */
  lemma LeftoverNeverPublished(r: Root, name: string, after: Root, leftover: string)
    requires Follows(r, Attempt(name, after), after) && leftover in r.staging
    ensures leftover in after.staging && after.staging[leftover] == r.staging[leftover]
  {
    assert leftover in after.staging - {name};
  }

  /** Leftovers do not stand in the way: with a legacy directory and no target the
      layout can be migrated whatever plain staging directories there are, and
      after the publication they change nothing. */
  lemma LeftoverNeverBlocks(r: Root)
    requires Startable(r)
    ensures Inspect(r) in {Legacy, Migrating} && Authority(r) == Some(AtLegacy)
    ensures forall t: Tree, m | SealsAuthority(m) :: Inspect(r.(target := Dir(t, Some(m)))) == Migrated
  {
  }
}
