/** Which turn an event goes to, what a prompt opens and what maintenance moves. */
module LedgerUpkeep {
  import opened Common
  import opened Ordering
  import opened LedgerReducer
  import opened LedgerRuns

  // ----- The turn of an event -----------------------------------------------

  /** The event's agent has no turn, its identity is a stand-in, and one agent
      alone has a turn. */
  predicate BelongsTo(active: map<string, Turn>, e: Event, k: string) {
    !e.kind.Prompt? && e.legacyIdentity && e.agent !in active && active.Keys == {k}
  }

  /** An event goes to its own agent's turn, unless it belongs to the only one. */
  lemma GoesToExactly(active: map<string, Turn>, e: Event, k: string)
    ensures TurnKey(active, e) == k <==>
      BelongsTo(active, e, k) || (k == e.agent && forall other :: !BelongsTo(active, e, other))
  {
    if |active| == 1 {
      var only := OnlyKey(active);
      assert Elements(Sorted(active.Keys)) == {only};
      assert Sorted(active.Keys)[0] in Elements(Sorted(active.Keys));
      assert BelongsTo(active, e, only) <==> !e.kind.Prompt? && e.legacyIdentity && e.agent !in active;
    } else {
      forall other ensures !BelongsTo(active, e, other) {
        assert |active| == |active.Keys|;
      }
    }
  }

  lemma OnlyKey(active: map<string, Turn>) returns (only: string)
    requires |active| == 1
    ensures active.Keys == {only}
  {
    only :| only in active.Keys;
    SubsetSize({only}, active.Keys);
  }

  /** A prompt is refused if and only if it names a turn that its agent has retired.
      Otherwise the agent's open turn is the one it names, last used now, and that
      turn is no longer listed as closed. */
  lemma PromptOpensExactly(l: Ledger, e: Event)
    requires e.kind.Prompt?
    ensures var r := Applied(l, e);
      if NamesTurn(e) && Listed(l.retired, e.agent, e.turnId.value) then
        r == l.(eventSeq := if l.eventSeq < e.seqNo then e.seqNo else l.eventSeq)
      else
        && e.agent in r.active && r.active[e.agent].lastEventAt == Some(e.time) && r.retired == l.retired
        && (NamesTurn(e) ==>
              r.active[e.agent].turnId == e.turnId.value && !Listed(r.closed, e.agent, e.turnId.value))
  {
    CollectedLeaves(Counted(l, e), e.time, if NamesActive(l, e, e.agent) then Some(e.agent) else None);
    var ready := Prepared(Counted(l, e), e, e.agent);
    if NamesTurn(e) {
      var id := e.turnId.value;
      var forgotten := Dropped(ready.closed, e.agent, id);
      if e.agent in ready.active && ready.active[e.agent].turnId != id {
        OthersRemembered(forgotten, e.agent, ready.active[e.agent].turnId, e.seqNo, id);
      }
    }
  }

  lemma OthersRemembered(closed: seq<Terminal>, k: string, turnId: string, seqNo: nat, id: string)
    requires !Listed(closed, k, id) && turnId != id
    ensures !Listed(Remembered(closed, k, turnId, seqNo), k, id)
  {
    var all := Dropped(closed, k, turnId) + [Terminal(k, turnId, seqNo)];
    forall t | t in LastOf(all, MAX_CLOSED_TURNS) ensures t in all {
    }
  }

  // ----- Maintenance --------------------------------------------------------

  /** The pair is that of an open turn of one of the agents. */
  predicate OpenAmong(l: Ledger, keys: seq<string>, k: string, id: string) {
    k in keys && k in l.active && l.active[k].turnId == id != ""
  }

  lemma AddedToList(ts: seq<Terminal>, agent: string, turnId: string, seqNo: nat, k: string, id: string)
    ensures Listed(Dropped(ts, agent, turnId) + [Terminal(agent, turnId, seqNo)], k, id)
      <==> Listed(ts, k, id) || (k == agent && id == turnId)
  {
    var r := Dropped(ts, agent, turnId) + [Terminal(agent, turnId, seqNo)];
    assert r[|r| - 1] == Terminal(agent, turnId, seqNo);
    if t :| t in ts && t.agent == k && t.turnId == id {
      assert t in r || (k == agent && id == turnId);
    }
  }

  lemma {:induction false} ClosesListed(l: Ledger, keys: seq<string>, k: string, id: string)
    requires |l.closed| + |keys| <= MAX_CLOSED_TURNS
    ensures |CloseAll(l, keys).closed| <= |l.closed| + |keys|
    ensures Listed(CloseAll(l, keys).closed, k, id) <==> Listed(l.closed, k, id) || OpenAmong(l, keys, k, id)
    ensures CloseAll(l, keys).attribution == l.attribution
  {
    if keys != [] {
      var init, last := keys[..|keys| - 1], keys[|keys| - 1];
      ClosesListed(l, init, k, id);
      CloseAllLeaves(l, init);
      assert keys == init + [last];
      var m := CloseAll(l, init);
      if last in m.active {
        AddedToList(m.closed, last, m.active[last].turnId, m.eventSeq, k, id);
      }
    }
  }

  lemma {:induction false} RetiresListed(l: Ledger, keys: seq<string>, k: string, id: string)
    ensures RetireAll(l, keys).active == l.active - Elements(keys)
    ensures Listed(RetireAll(l, keys).retired, k, id) <==> Listed(l.retired, k, id) || OpenAmong(l, keys, k, id)
    ensures RetireAll(l, keys) ==
      l.(active := RetireAll(l, keys).active, retired := RetireAll(l, keys).retired)
  {
    if keys == [] {
      EmptyElements(keys);
    } else {
      var init, last := keys[..|keys| - 1], keys[|keys| - 1];
      RetiresListed(l, init, k, id);
      assert keys == init + [last];
      assert Elements(keys) == Elements(init) + {last};
      var m := RetireAll(l, init);
      if last in m.active {
        AddedToList(m.retired, last, m.active[last].turnId, m.eventSeq, k, id);
      }
    }
  }

  /** Maintenance is refused as a whole if and only if a list would outgrow 256
      turns. Otherwise the given agents' turns are no longer open, those closed are
      listed as closed and the others as retired, and nothing else is. */
  lemma MaintainedExactly(l: Ledger, close: seq<string>, retire: seq<string>, k: string, id: string)
    ensures var r := Maintained(l, close, retire);
      if |l.closed| + |close| > 256 || |l.retired| + |retire| > 256 then r == l
      else
        && r.active == l.active - Elements(close) - Elements(retire)
        && (Listed(r.closed, k, id) <==> Listed(l.closed, k, id) || OpenAmong(l, close, k, id))
        && (Listed(r.retired, k, id) <==> Listed(l.retired, k, id) || (k !in close && OpenAmong(l, retire, k, id)))
        && r == l.(active := r.active, closed := r.closed, retired := r.retired)
  {
    if MaintenanceFits(l, close, retire) {
      ClosesListed(l, close, k, id);
      CloseAllLeaves(l, close);
      RetiresListed(CloseAll(l, close), retire, k, id);
    }
  }
}
