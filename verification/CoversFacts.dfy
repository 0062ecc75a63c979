/** What a turn's revision table holds, read off the changes the turn recorded. */
module CoversFacts {
  import opened Common
  import opened Covers

  /** One changed path of one change event. */
  datatype Recording = Recording(change: Change, item: Item)

  function RecordingsOf(c: Change, items: seq<Item>): seq<Recording> {
    if items == [] then []
    else RecordingsOf(c, items[..|items| - 1]) + [Recording(c, items[|items| - 1])]
  }

  /** The changed paths of a list of change events, in order. */
  function HistoryOf(cs: seq<Change>): seq<Recording> {
    if cs == [] then []
    else HistoryOf(cs[..|cs| - 1]) + RecordingsOf(cs[|cs| - 1], cs[|cs| - 1].items)
  }

  predicate On(r: Recording, key: string) {
    Counts(r.item) && Key(r.item.path) == key
  }

  function FirstOn(h: seq<Recording>, key: string): Option<Recording> {
    if h == [] then None else
      var prior := FirstOn(h[..|h| - 1], key);
      if prior.None? && On(h[|h| - 1], key) then Some(h[|h| - 1]) else prior
  }

  function LastOn(h: seq<Recording>, key: string): (r: Option<Recording>)
    ensures r.Some? ==> On(r.value, key) && r.value in h
  {
    if h == [] then None
    else if On(h[|h| - 1], key) then Some(h[|h| - 1])
    else LastOn(h[..|h| - 1], key)
  }

  /** Its last digest is not the one it had before its first change. */
  predicate NetChanged(h: seq<Recording>, key: string) {
    var first, last := FirstOn(h, key), LastOn(h, key);
    first.Some? && last.Some? && last.value.item.after != first.value.item.before
  }

  /** The change is contended, the turn's own, or leaves content on a path that
      others contend for. */
  predicate OwnWork(r: Recording) {
    r.change.contended || r.change.own || (r.item.after.Some? && r.item.status.IsContended?)
  }

  predicate HasOwnWork(h: seq<Recording>, key: string) {
    exists r | r in h :: On(r, key) && OwnWork(r)
  }

  /** The change is a peer's, which alone has the path and whose log shows it, and
      the turn did not work on the path before. */
  predicate IsPeers(before: seq<Recording>, r: Recording) {
    && !r.change.contended && !r.change.own && r.item.after.Some? && r.item.status.IsExclusive? && r.item.peerMatches
    && !HasOwnWork(before, Key(r.item.path))
  }

  /** The last change of the path is a peer's. */
  predicate LastIsPeers(h: seq<Recording>, key: string) {
    if h == [] then false
    else if On(h[|h| - 1], key) then IsPeers(h[..|h| - 1], h[|h| - 1])
    else LastIsPeers(h[..|h| - 1], key)
  }

  /** The path has a net change, the last of its changes is neither exempt nor
      documentation, and it is not a peer's. */
  predicate Needs(h: seq<Recording>, key: string) {
    && NetChanged(h, key)
    && !LastOn(h, key).value.item.exempt && !LastOn(h, key).value.item.docs
    && !LastIsPeers(h, key)
  }

  function StampAt(r: Recording): Stamp {
    Stamp(r.item.changeId, r.item.path, r.item.after, r.change.eventId)
  }

  function KeysOf(h: seq<Recording>): set<string> {
    set r | r in h :: Key(r.item.path)
  }

  /** The last changes of the paths that need verification. */
  function Needed(h: seq<Recording>): set<Stamp> {
    set key | key in KeysOf(h) && Needs(h, key) :: StampAt(LastOn(h, key).value)
  }

  // ----- The table tells the history ----------------------------------------

  ghost predicate BaselineTells(t: Turn, h: seq<Recording>, key: string) {
    && (key in t.baselines <==> FirstOn(h, key).Some?)
    && (key in t.baselines ==> t.baselines[key] == FirstOn(h, key).value.item.before && LastOn(h, key).Some?)
  }

  /** The revision is that of the last change. */
  ghost predicate RevisionTells(r: Revision, last: Recording, peers: bool) {
    && r.changeId == last.item.changeId && r.path == last.item.path && r.after == last.item.after
    && r.eventId == last.change.eventId && r.seqNo == last.change.seqNo && r.generation == last.change.generation
    && (r.requires_ <==> !last.item.exempt && !last.item.docs)
    && (r.credit == Peer <==> peers)
  }

  ghost predicate AuditTells(t: Turn, h: seq<Recording>, key: string) {
    && ((exists a | a in t.audit :: a.key == key && a.credit in {Own, Contended}) <==> HasOwnWork(h, key))
    && (key in t.revisions && t.revisions[key].credit in {Own, Contended} ==> HasOwnWork(h, key))
  }

  ghost predicate TableAt(t: Turn, h: seq<Recording>, key: string) {
    && BaselineTells(t, h, key) && AuditTells(t, h, key)
    && (key in t.revisions <==> NetChanged(h, key))
    && (key in t.revisions ==> RevisionTells(t.revisions[key], LastOn(h, key).value, LastIsPeers(h, key)))
  }

  ghost predicate TableTrue(t: Turn, h: seq<Recording>) {
    forall key :: TableAt(t, h, key)
  }

  lemma AuditGrows(t: Turn, a: Audit, key: string)
    ensures (exists b | b in t.audit + [a] :: b.key == key && b.credit in {Own, Contended}) <==>
      (exists b | b in t.audit :: b.key == key && b.credit in {Own, Contended}) || (a.key == key && a.credit in {Own, Contended})
  {
    assert a in t.audit + [a];
    assert forall b | b in t.audit :: b in t.audit + [a];
  }

  lemma OwnWorkGrows(h: seq<Recording>, r: Recording, key: string)
    ensures HasOwnWork(h + [r], key) <==> HasOwnWork(h, key) || (On(r, key) && OwnWork(r))
  {
    assert r in h + [r];
    assert forall x | x in h :: x in h + [r];
  }

  /** What the code credits is what the inputs say. */
  lemma CreditTells(t: Turn, h: seq<Recording>, c: Change, item: Item)
    requires AuditTells(t, h, Key(item.path))
    ensures CreditOf(t, c, item) == Peer <==> IsPeers(h, Recording(c, item))
    ensures CreditOf(t, c, item) in {Own, Contended} <==> OwnWork(Recording(c, item))
  {
    assert HasOwnHistory(t, Key(item.path)) <==> HasOwnWork(h, Key(item.path));
  }

  lemma LaterItem(h: seq<Recording>, r: Recording, key: string)
    ensures FirstOn(h + [r], key) == if FirstOn(h, key).None? && On(r, key) then Some(r) else FirstOn(h, key)
    ensures LastOn(h + [r], key) == if On(r, key) then Some(r) else LastOn(h, key)
    ensures LastIsPeers(h + [r], key) == if On(r, key) then IsPeers(h, r) else LastIsPeers(h, key)
  {
    assert (h + [r])[..|h|] == h;
  }

  lemma ItemKeepsTable(t: Turn, h: seq<Recording>, c: Change, item: Item, key: string)
    requires TableAt(t, h, key)
    ensures TableAt(ItemRecorded(t, c, item), h + [Recording(c, item)], key)
  {
    var r := Recording(c, item);
    LaterItem(h, r, key);
    OwnWorkGrows(h, r, key);
    if Counts(item) {
      var credit := CreditOf(t, c, item);
      AuditGrows(t, Audit(item.changeId, item.path, item.after, c.eventId, Key(item.path), credit), key);
      if Key(item.path) == key {
        CreditTells(t, h, c, item);
      }
    }
  }

  lemma {:induction false} ItemsKeepTable(t: Turn, h: seq<Recording>, c: Change, items: seq<Item>)
    requires TableTrue(t, h)
    ensures TableTrue(ItemsRecorded(t, c, items), h + RecordingsOf(c, items))
  {
    if items == [] {
      assert h + [] == h;
    } else {
      var init, last := items[..|items| - 1], items[|items| - 1];
      ItemsKeepTable(t, h, c, init);
      var m, now := ItemsRecorded(t, c, init), h + RecordingsOf(c, init);
      assert h + RecordingsOf(c, items) == now + [Recording(c, last)];
      forall key ensures TableAt(ItemRecorded(m, c, last), h + RecordingsOf(c, items), key) {
        ItemKeepsTable(m, now, c, last, key);
      }
    }
  }

  /** The table does not depend on the results, nor on the mark that there is one. */
  lemma SameTable(t: Turn, r: Turn, h: seq<Recording>)
    requires TableTrue(t, h) && r.baselines == t.baselines && r.revisions == t.revisions && r.audit == t.audit
    ensures TableTrue(r, h)
  {
    forall key ensures TableAt(r, h, key) {
      assert TableAt(t, h, key);
    }
  }

  lemma ChangeKeepsTable(t: Turn, h: seq<Recording>, c: Change)
    requires TableTrue(t, h)
    ensures TableTrue(Recorded(t, c), h + RecordingsOf(c, c.items))
  {
    ItemsKeepTable(t, h, c, c.items);
    SameTable(ItemsRecorded(t, c, c.items), Recorded(t, c), h + RecordingsOf(c, c.items));
  }

  lemma NothingRecorded()
    ensures TableTrue(START, [])
  {
    forall key ensures TableAt(START, [], key) {
    }
  }

  function RunOf(t: Turn, cs: seq<Change>): Turn {
    if cs == [] then t else Recorded(RunOf(t, cs[..|cs| - 1]), cs[|cs| - 1])
  }

  /** Over any sequence of changes the revision table holds exactly the paths with
      a net change, each under its last change. */
  lemma {:induction false} TableIsNetChange(cs: seq<Change>)
    ensures TableTrue(RunOf(START, cs), HistoryOf(cs))
  {
    if cs == [] {
      NothingRecorded();
    } else {
      TableIsNetChange(cs[..|cs| - 1]);
      ChangeKeepsTable(RunOf(START, cs[..|cs| - 1]), HistoryOf(cs[..|cs| - 1]), cs[|cs| - 1]);
    }
  }

  /** What is pending are the last changes of the paths that need verification:
      those with a net change whose last change is neither exempt nor documentation
      nor a peer's. */
  lemma PendingExactly(t: Turn, h: seq<Recording>)
    requires TableTrue(t, h)
    ensures Pending(t) == Needed(h)
  {
    forall key ensures IsPending(t, key) <==> Needs(h, key) && key in KeysOf(h)
      ensures IsPending(t, key) ==> StampOf(t.revisions[key]) == StampAt(LastOn(h, key).value)
    {
      assert TableAt(t, h, key);
    }
  }

  lemma {:induction false} RecordingsCome(c: Change, items: seq<Item>)
    ensures forall r | r in RecordingsOf(c, items) :: r.change == c
  {
    if items != [] {
      RecordingsCome(c, items[..|items| - 1]);
    }
  }

  /** The last change of a path in a longer history is in the added part, if that
      has one. */
  lemma {:induction false} LastOfConcat(h: seq<Recording>, more: seq<Recording>, key: string)
    ensures LastOn(h + more, key) == if LastOn(more, key).Some? then LastOn(more, key) else LastOn(h, key)
  {
    if more == [] {
      assert h + [] == h;
    } else {
      assert (h + more)[..|h + more| - 1] == h + more[..|more| - 1];
      LastOfConcat(h, more[..|more| - 1], key);
    }
  }

  // ----- A path changed back ------------------------------------------------

  function Single(eventId: string, before: Option<string>, after: Option<string>): Change {
    Change(eventId, 0, 0, false, true, [Item("f", "c", before, after, false, false, Unlisted, false)])
  }

  /** A path that a turn creates and removes again is in its table in between only,
      although both changes were recorded. */
  lemma ChangedBackIsNoRevision()
    ensures var create, remove := Single("1", None, Some("d")), Single("2", Some("d"), None);
      && "f" in RunOf(START, [create]).revisions
      && "f" !in RunOf(START, [create, remove]).revisions
      && |HistoryOf([create, remove])| == 2
  {
    var create, remove := Single("1", None, Some("d")), Single("2", Some("d"), None);
    var cs := [create, remove];
    assert cs[..1] == [create] && [create][..0] == [] && Key("f") == "f";
    var one, two := Recording(create, create.items[0]), Recording(remove, remove.items[0]);
    assert create.items[..0] == [] && remove.items[..0] == [];
    assert RecordingsOf(create, create.items) == [one] && RecordingsOf(remove, remove.items) == [two];
    assert HistoryOf([create]) == [] + [one] == [one];
    assert HistoryOf(cs) == HistoryOf(cs[..1]) + RecordingsOf(remove, remove.items) == [one, two];
    assert [one, two][..1] == [one] && [one][..0] == [];
    TableIsNetChange([create]);
    TableIsNetChange(cs);
    assert TableAt(RunOf(START, [create]), [one], "f") && TableAt(RunOf(START, cs), [one, two], "f");
    assert FirstOn([one], "f") == LastOn([one], "f") == Some(one);
    assert FirstOn([one, two], "f") == Some(one) && LastOn([one, two], "f") == Some(two);
  }
}
