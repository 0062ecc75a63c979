/** What counts as state, which directory is the authority and which staging
    directories are given up, each said without the function that decides it.
  */
module MigrationAnswers {
  import opened Common
  import opened Ordering
  import opened Paths
  import opened Migration
  import Decimals

  // ----- Paths that do not count --------------------------------------------

  ghost predicate EndsIn(name: string, suffix: string) {
    exists stem: string :: name == stem + suffix
  }

  /** Guards, locks and temporary files. */
  ghost predicate PassingName(name: string) {
    EndsIn(name, ".guard") || EndsIn(name, ".lock") || EndsIn(name, ".tmp")
  }

  /** The project configuration and the migration marker at the top, and guards,
      locks and temporary files anywhere. */
  ghost predicate Passing(names: seq<string>)
    requires names != []
  {
    || names == ["config.json"] || names == [".smtw-migration.json"]
    || PassingName(names[|names| - 1])
  }

  lemma EndsInExactly(name: string, suffix: string)
    ensures EndsIn(name, suffix) <==> EndsWith(name, suffix)
  {
    if EndsWith(name, suffix) {
      assert name == name[..|name| - |suffix|] + suffix;
    }
    if EndsIn(name, suffix) {
      var stem: string :| name == stem + suffix;
      assert name[|name| - |suffix|..] == suffix;
    }
  }

  lemma {:induction false} NameIsLast(path: string)
    ensures var cs := Components(path); Name(path) == cs[|cs| - 1]
  {
    if '/' !in path {
      ComponentsOfPlain(path);
    } else {
      var init, c := path[..|path| - 1], path[|path| - 1];
      assert path == init + [c];
      if c == '/' {
        SlashAppended(init);
      } else {
        assert '/' in init;
        NameIsLast(init);
        ComponentsAppended(init, c);
      }
    }
  }

  lemma SlashAppended(s: string)
    ensures Components(s + ['/']) == Components(s) + [""]
  {
    assert s + ['/'] == s + "/" + "";
    ComponentsOfJoin(s, "");
  }

  lemma {:induction false} ComponentsAppended(s: string, c: char)
    requires c != '/'
    ensures var cs := Components(s); Components(s + [c]) == cs[..|cs| - 1] + [cs[|cs| - 1] + [c]]
  {
    if s == "" {
      assert Components([c][1..]) == [""];
      assert s + [c] == [c] + "" == [c];
      assert [""][..0] + [[c]] == [[c]] + [""][1..];
    } else {
      ComponentsAppended(s[1..], c);
      assert (s + [c])[1..] == s[1..] + [c];
      var tail := Components(s[1..]);
      if s[0] == '/' {
        assert Components(s) == [""] + tail;
      } else if |tail| == 1 {
        assert [s[0]] + (tail[0] + [c]) == ([s[0]] + tail[0]) + [c];
      } else {
        assert Components(s) == [[s[0]] + tail[0]] + tail[1..];
      }
    }
  }

  lemma PlainExactly(path: string, plain: string)
    requires '/' !in plain
    ensures path == plain <==> Components(path) == [plain]
  {
    ComponentsOfPlain(plain);
    JoinedComponents(path);
  }

  lemma NamePasses(name: string)
    ensures PassingName(name) <==> EndsWith(name, ".guard") || EndsWith(name, ".lock") || EndsWith(name, ".tmp")
  {
    EndsInExactly(name, ".guard");
    EndsInExactly(name, ".lock");
    EndsInExactly(name, ".tmp");
  }

  lemma LedgerNamesPass()
    ensures PassingName("ledger.guard") && PassingName("ledger.lock")
  {
    assert "ledger.guard" == "ledger" + ".guard";
    assert "ledger.lock" == "ledger" + ".lock";
  }

  lemma TransientExactly(path: string)
    ensures IsTransient(path) <==> Passing(Components(path))
  {
    NameIsLast(path);
    PlainExactly(path, "config.json");
    PlainExactly(path, ".smtw-migration.json");
    LedgerNamesPass();
    NamePasses(Name(path));
  }

  lemma AboveIsPrefix(path: string, i: nat)
    requires i < |path| && path[i] == '/'
    ensures 0 < |Components(path[..i])| < |Components(path)|
    ensures Components(path)[..|Components(path[..i])|] == Components(path[..i])
  {
    assert path == path[..i] + "/" + path[i + 1..];
    ComponentsOfJoin(path[..i], path[i + 1..]);
  }

  lemma PrefixIsAbove(path: string, n: nat) returns (i: nat)
    requires 0 < n < |Components(path)|
    ensures i < |path| && path[i] == '/' && Components(path[..i]) == Components(path)[..n]
  {
    var cs := Components(path);
    JoinedComponents(path);
    assert cs == cs[..n] + cs[n..];
    JoinedOfConcat(cs[..n], cs[n..]);
    ComponentsHaveNoSlash(path);
    ComponentsOfJoined(cs[..n]);
    i := |Joined(cs[..n])|;
    assert path[..i] == Joined(cs[..n]);
  }

  /** The path up to its n-th name is one of those. */
  ghost predicate PassesAt(path: string, n: nat) {
    0 < n <= |Components(path)| && Passing(Components(path)[..n])
  }

  lemma TransientPasses(path: string, i: nat)
    requires i < |path| && path[i] == '/' && IsTransient(path[..i])
    ensures PassesAt(path, |Components(path[..i])|)
  {
    AboveIsPrefix(path, i);
    TransientExactly(path[..i]);
  }

  lemma PassingHides(path: string, n: nat)
    requires PassesAt(path, n)
    ensures Hidden(path)
  {
    if n == |Components(path)| {
      assert Components(path)[..n] == Components(path);
      TransientExactly(path);
    } else {
      var i := PrefixIsAbove(path, n);
      TransientExactly(path[..i]);
    }
  }

  /** A path is left out of the state exactly if it, or a directory above it, is one
      of those. */
  lemma HiddenExactly(path: string)
    ensures Hidden(path) <==> exists n :: PassesAt(path, n)
  {
    if Hidden(path) {
      if IsTransient(path) {
        TransientExactly(path);
        assert Components(path)[..|Components(path)|] == Components(path);
        assert PassesAt(path, |Components(path)|);
      } else {
        var i :| 0 <= i < |path| && path[i] == '/' && IsTransient(path[..i]);
        TransientPasses(path, i);
      }
    }
    if n :| PassesAt(path, n) {
      PassingHides(path, n);
    }
  }

  // ----- The authority ------------------------------------------------------

  ghost predicate Orderly(r: Root) {
    !r.legacy.Invalid? && forall n | n in r.staging :: !r.staging[n].Invalid?
  }

  /** A finished migration: the target says so of this project. */
  predicate Finished(r: Root) {
    && r.target.Dir? && r.target.marker.Some?
    && r.target.marker.value.phase == Published && r.target.marker.value.matches
  }

  /** The legacy directory is the authority exactly while there is no target; the
      target is, exactly if a migration has finished or it stands alone or nothing
      stands; and in every other case there is none. */
  lemma AuthorityExactly(r: Root)
    ensures Authority(r) == Some(AtLegacy) <==> r.target.Absent? && r.legacy.Dir? && Orderly(r)
    ensures Authority(r) == Some(AtTarget) <==>
      || Finished(r)
      || (!r.target.Invalid? && (r.target.Dir? ==> r.target.marker.None?) && r.legacy.Absent? && r.staging == map[])
    ensures Inspect(r).Migrated? <==> Finished(r)
    ensures Inspect(r).Migrating? <==> Authority(r) == Some(AtLegacy) && r.staging != map[]
    ensures Inspect(r).Native? <==> Authority(r) == Some(AtTarget) && r.target.Dir? && !Finished(r)
  {
  }

  // ----- Staging that is given up -------------------------------------------

  /** The directory is named after the process and the attempt of its own marker,
      which is this project's, and the process has long been dead. */
  ghost predicate LeftBehind(name: string, slot: Slot, dead: set<string>) {
    && name in dead && slot.Dir? && slot.marker.Some? && slot.marker.value.matches
    && slot.marker.value.pid != 0 && slot.marker.value.id != ""
    && name == ".smtw.migrating-" + Decimals.Decimal(slot.marker.value.pid) + "-" + slot.marker.value.id
  }

  /** Recovery gives up exactly the directories left behind, and touches no other. */
  lemma RecoveryLeavesExactly(r: Root, dead: set<string>)
    ensures var after := WithoutOrphans(r, dead);
      && after.legacy == r.legacy && after.target == r.target
      && (forall n :: n in after.staging <==> n in r.staging && !LeftBehind(n, r.staging[n], dead))
      && (forall n | n in after.staging :: after.staging[n] == r.staging[n])
  {
    assert Elements(Sorted(r.staging.Keys)) == r.staging.Keys;
    forall n ensures n in Sorted(r.staging.Keys) <==> n in r.staging {
      assert n in Elements(Sorted(r.staging.Keys)) <==> n in r.staging;
    }
  }

  /** What the state directory and its migration put into the project root has a
      protected name. */
  lemma StateNamesAreProtected(pid: nat, id: string)
    ensures IsProtectedName(".smtw") && IsProtectedName(".fable-lite")
    ensures IsProtectedName(".smtw-migration.lock") && IsProtectedName(".smtw-migration-receipt.json")
    ensures IsProtectedName(StagingName(pid, id)) && IsProtectedName(".smtw-migration-receipt.json.tmp-" + id)
  {
    assert ".smtw.migrating-" <= StagingName(pid, id);
    assert ".smtw-migration-receipt.json.tmp-" <= ".smtw-migration-receipt.json.tmp-" + id;
  }
}
