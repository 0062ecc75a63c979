/** Verification freshness: what a verification covered is what was pending when
    its covers were captured.

    Models core/verification_covers.py on a POSIX system. The state of the
    attribution index and the peer's log, which only decide whether a foreign
    change is credited to a peer, are inputs of each changed path.
  */
module Covers {
  import opened Common

  datatype Credit = Own | Contended | Peer | External

  datatype IndexStatus = Unavailable | Unlisted | IsExclusive | IsContended

  /** One changed path of an event, and what the ledger says about its path. */
  datatype Item = Item(
    path: string, changeId: string, before: Option<string>, after: Option<string>,
    docs: bool, exempt: bool, status: IndexStatus, peerMatches: bool)

  /** A change event; `own`: its owner is its agent. */
  datatype Change = Change(eventId: string, seqNo: nat, generation: nat, contended: bool, own: bool, items: seq<Item>)

  datatype Revision = Revision(
    changeId: string, path: string, after: Option<string>, eventId: string,
    requires_: bool, credit: Credit, seqNo: nat, generation: nat)

  datatype Audit = Audit(changeId: string, path: string, after: Option<string>, eventId: string, key: string, credit: Credit)

  /** A revision as covers identify it. */
  datatype Stamp = Stamp(changeId: string, path: string, after: Option<string>, eventId: string)

  datatype Captured = Captured(throughSeq: nat, stamps: set<Stamp>)

  datatype Outcome = Outcome(success: bool, covers: Option<Captured>)

  /** `tracked`: the turn has a revision table. */
  datatype Turn = Turn(
    tracked: bool, baselines: map<string, Option<string>>, revisions: map<string, Revision>,
    audit: seq<Audit>, results: seq<Outcome>)

  /** `canonical_manifest_key`. */
  function Key(path: string): string {
    if path == "" then "" else [if path[0] == '\\' then '/' else path[0]] + Key(path[1..])
  }

  predicate Counts(item: Item) {
    item.path != "" && item.changeId != ""
  }

  // ----- Recording ----------------------------------------------------------

  predicate HasOwnHistory(t: Turn, key: string) {
    || (key in t.revisions && t.revisions[key].credit in {Own, Contended})
    || exists a | a in t.audit :: a.key == key && a.credit in {Own, Contended}
  }

  /** `_revision_attribution`. */
  function CreditOf(t: Turn, c: Change, item: Item): Credit {
    var key := Key(item.path);
    if c.contended then Contended
    else if c.own then Own
    else if item.after.None? || item.status.Unavailable? || item.status.Unlisted? then External
    else if !item.status.IsExclusive? || HasOwnHistory(t, key) then
      (if item.status.IsContended? then Contended else External)
    else if item.peerMatches then Peer
    else External
  }

  function RevisionOf(c: Change, item: Item, credit: Credit): Revision {
    Revision(item.changeId, item.path, item.after, c.eventId, !item.exempt && !item.docs, credit, c.seqNo, c.generation)
  }

  /** One turn of the loop of `record_path_revisions`. */
  function ItemRecorded(t: Turn, c: Change, item: Item): Turn {
    if !Counts(item) then t else
      var key := Key(item.path);
      var credit := CreditOf(t, c, item);
      var baselines := if key in t.baselines then t.baselines else t.baselines[key := item.before];
      t.(baselines := baselines,
         audit := t.audit + [Audit(item.changeId, item.path, item.after, c.eventId, key, credit)],
         revisions :=
           if item.after == baselines[key] then t.revisions - {key}
           else t.revisions[key := RevisionOf(c, item, credit)])
  }

  function ItemsRecorded(t: Turn, c: Change, items: seq<Item>): Turn {
    if items == [] then t else ItemRecorded(ItemsRecorded(t, c, items[..|items| - 1]), c, items[|items| - 1])
  }

  function Recorded(t: Turn, c: Change): Turn {
    ItemsRecorded(t, c, c.items).(tracked := true)
  }

  /** A change as it is recorded without the attribution index. */
  function Unattributed(c: Change): Change {
    c.(items := seq(|c.items|, i requires 0 <= i < |c.items| => c.items[i].(status := Unavailable)))
  }

  // ----- Capturing, attaching, judging --------------------------------------

  function StampOf(r: Revision): Stamp {
    Stamp(r.changeId, r.path, r.after, r.eventId)
  }

  predicate IsPending(t: Turn, key: string) {
    key in t.revisions && t.revisions[key].requires_ && t.revisions[key].credit != Peer
  }

  /** The stamps of `pending_revisions`. */
  function Pending(t: Turn): set<Stamp> {
    set key | key in t.revisions && IsPending(t, key) :: StampOf(t.revisions[key])
  }

  function Capture(t: Turn, eventSeq: nat): Captured {
    Captured(eventSeq, Pending(t))
  }

  /** A verification event: the result is appended, then its covers attached. */
  function Verified(t: Turn, success: bool, covers: Option<Captured>): Turn {
    t.(results := t.results + [Outcome(success, covers)])
  }

  predicate CoversAll(covers: Captured, pending: set<Stamp>) {
    forall s | s in pending :: s in covers.stamps
  }

  /** `covers_verified`; None when the turn has no revision table. */
  function CoversVerified(t: Turn): Option<bool> {
    if !t.tracked then None
    else if Pending(t) == {} then Some(true)
    else Some(exists r | r in t.results :: r.success && r.covers.Some? && CoversAll(r.covers.value, Pending(t)))
  }

  // ----- The turn as it is edited in place ----------------------------------

  class TurnState {
    var tracked: bool
    var baselines: map<string, Option<string>>
    var revisions: map<string, Revision>
    var audit: seq<Audit>
    var results: seq<Outcome>

    ghost function Value(): Turn
      reads this
    {
      Turn(tracked, baselines, revisions, audit, results)
    }

    constructor ()
      ensures Value() == Turn(false, map[], map[], [], [])
    {
      tracked, baselines, revisions, audit, results := false, map[], map[], [], [];
    }

    method RecordItem(c: Change, item: Item)
      modifies this`baselines, this`revisions, this`audit
      ensures Value() == ItemRecorded(old(Value()), c, item)
    {
      if item.path == "" || item.changeId == "" {
        return;
      }
      var key := Key(item.path);
      var credit := CreditOf(Turn(tracked, baselines, revisions, audit, results), c, item);
      if key !in baselines {
        baselines := baselines[key := item.before];
      }
      audit := audit + [Audit(item.changeId, item.path, item.after, c.eventId, key, credit)];
      if item.after == baselines[key] {
        revisions := revisions - {key};
        return;
      }
      revisions := revisions[key := RevisionOf(c, item, credit)];
    }

    /** `record_path_revisions`. */
    method RecordPathRevisions(c: Change)
      modifies this`tracked, this`baselines, this`revisions, this`audit
      ensures Value() == Recorded(old(Value()), c)
    {
      for n := 0 to |c.items|
        invariant Value() == ItemsRecorded(old(Value()), c, c.items[..n])
      {
        assert c.items[..n + 1][..n] == c.items[..n];
        RecordItem(c, c.items[n]);
      }
      assert c.items[..|c.items|] == c.items;
      tracked := true;
    }

    method Verify(success: bool, covers: Option<Captured>)
      modifies this`results
      ensures Value() == Verified(old(Value()), success, covers)
    {
      results := results + [Outcome(success, None)];
      if covers.Some? {
        AttachCovers(covers.value);
      }
    }

    /** `attach_covers`: to the latest result, if there is one. */
    method AttachCovers(covers: Captured)
      modifies this`results
      ensures results == if old(results) == [] then [] else
        old(results)[..|old(results)| - 1] + [old(results)[|old(results)| - 1].(covers := Some(covers))]
    {
      if results == [] {
        return;
      }
      results := results[|results| - 1 := results[|results| - 1].(covers := Some(covers))];
    }
  }

  const START := Turn(false, map[], map[], [], [])
}
