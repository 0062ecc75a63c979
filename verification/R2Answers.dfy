/** When the destructive-command gate lets a request through, said without its own
    text tests: by places, owners and the state it reads.
  */
module R2Answers {
  import opened Common
  import opened Paths
  import opened PathAttribution
  import opened AttributionFacts
  import opened R2Gate

  /** Names of a file system: none is empty or holds a slash. */
  ghost predicate WellNamed(r: Resolved) {
    r.At? ==> forall n | n in r.place :: n != "" && '/' !in n
  }

  ghost predicate WellNamedAll(q: Request) {
    forall c | c in q.commands ::
      (forall t | t in c.targets :: WellNamed(t.resolved)) && (forall r | r in c.containers :: WellNamed(r))
  }

  /** Nobody but the caller has an unsettled revision of the file. */
  ghost predicate OnlyOwn(st: State, caller: string, key: string) {
    forall agent | Protects(st.attribution, key, agent) :: agent == caller
  }

  /** A target outside the project, or one that the state directory does not
      claim, no open invocation of a peer writes and no other agent protects. */
  ghost predicate TargetFree(st: State, caller: string, root: Place, r: Resolved) {
    && r.At?
    && (root <= r.place ==>
          && st.lookupAvailable
          && (|r.place| > |root| ==> !IsProtectedName(r.place[|root|]))
          && (forall p | p in st.peerCandidates :: root + Components(p) != r.place)
          && (forall p | p in st.attribution.entries && root + Components(p) == r.place :: OnlyOwn(st, caller, p)))
  }

  /** A container that is the project root or lies above or beside it, or one
      that holds no file of a peer's open invocation and no file another agent
      protects. */
  ghost predicate ContainerFree(st: State, caller: string, root: Place, r: Resolved) {
    && r.At?
    && (root < r.place ==>
          && (forall p | p in st.peerCandidates :: !(r.place <= root + Components(p)))
          && (forall p | p in st.attribution.entries && r.place <= root + Components(p) ::
                st.lookupAvailable && OnlyOwn(st, caller, p)))
  }

  ghost predicate CommandFree(q: Request, st: State, c: Command) {
    && c.resolved
    && (forall t | t in c.targets :: t.lexical.Some? ==> !IsProtectedName(Components(t.lexical.value)[0]))
    && (forall t | t in c.targets :: TargetFree(st, CallerKey(q.caller), q.root, t.resolved))
    && (forall r | r in c.containers :: ContainerFree(st, CallerKey(q.caller), q.root, r))
  }

  ghost predicate Healthy(st: State) {
    !st.degraded && st.healthAvailable && !st.attributionDegraded && !st.attribution.capacityExceeded
  }

  lemma OwnedMeaning(st: State, caller: string, key: string)
    requires key in st.attribution.entries
    ensures OwnedByUnsettledPeer(st.attribution, key, caller) <==> !OnlyOwn(st, caller, key)
  {
    if OwnedByUnsettledPeer(st.attribution, key, caller) {
      var o :| o in st.attribution.entries[key].owners && o.agent != caller && !o.settled;
      assert Protects(st.attribution, key, o.agent);
    }
  }

  /** A key and a place below the root name the same file exactly if the key's
      components are the rest of the place. */
  lemma KeyOfPlace(root: Place, place: Place, p: string)
    requires root < place && WellNamed(At(place))
    ensures Canonical(root, At(place)) == InRoot(Joined(place[|root|..]))
    ensures Components(Joined(place[|root|..])) == place[|root|..]
    ensures root + Components(p) == place <==> p == Joined(place[|root|..])
  {
    var rest := place[|root|..];
    assert forall n | n in rest :: n in place;
    ComponentsOfJoined(rest);
    JoinedComponents(p);
    assert place == root + rest;
    if root + Components(p) == place {
      assert (root + Components(p))[|root|..] == Components(p);
    }
  }

  lemma DotIsFree(st: State)
    requires KeysOnly(st)
    ensures !IsStateDirKey(".") && "." !in st.peerCandidates && "." !in st.attribution.entries
  {
    ComponentsOfPlain(".");
    var dot, a, b := ".", ".smtw.migrating-", ".smtw-migration-receipt.json.tmp-";
    assert |a| > |dot| && |b| > |dot|;
    assert |".smtw"| == 5 && |".fable-lite"| == 11 && |".smtw-migration.lock"| == 20 && |".smtw-migration-receipt.json"| == 28;
  }

  lemma TargetMeaning(st: State, caller: string, root: Place, r: Resolved)
    requires KeysOnly(st) && WellNamed(r)
    ensures TargetClear(st, caller, Canonical(root, r)) <==> TargetFree(st, caller, root, r)
  {
    if r.At? && r.place == root {
      DotIsFree(st);
      forall p ensures root + Components(p) != r.place {
        assert |root + Components(p)| > |root|;
      }
    } else if r.At? && root < r.place {
      InsideTargetMeaning(st, caller, root, r.place);
    }
  }

  lemma InsideTargetMeaning(st: State, caller: string, root: Place, place: Place)
    requires root < place && WellNamed(At(place))
    ensures TargetClear(st, caller, Canonical(root, At(place))) <==> TargetFree(st, caller, root, At(place))
  {
    var key := Joined(place[|root|..]);
    KeyOfPlace(root, place, key);
    forall p ensures root + Components(p) == place <==> p == key {
      KeyOfPlace(root, place, p);
    }
    assert place[|root|..][0] == place[|root|];
    if key in st.attribution.entries {
      OwnedMeaning(st, caller, key);
    }
  }

  lemma ContainerFreeMeaning(st: State, caller: string, root: Place, r: Resolved)
    requires KeysOnly(st) && WellNamed(r)
    ensures ContainerClear(st, caller, Canonical(root, r)) <==> ContainerFree(st, caller, root, r)
  {
    if r.At? && r.place == root {
      forall p | p in st.peerCandidates || p in st.attribution.entries ensures !IsWithin(p, ".") {
        NothingInDot(p);
      }
    } else if r.At? && root < r.place {
      assert forall n | n in r.place[|root|..] :: n in r.place;
      forall p ensures r.place <= root + Components(p) <==> IsWithin(p, Canonical(root, r).key) {
        InsideHoldsExactly(root, r.place, p);
      }
      forall p | p in st.attribution.entries
        ensures OwnedByUnsettledPeer(st.attribution, p, caller) <==> !OnlyOwn(st, caller, p)
      {
        OwnedMeaning(st, caller, p);
      }
    }
  }

  lemma CommandMeaning(q: Request, st: State, c: Command)
    requires KeysOnly(st) && WellNamedAll(q) && c in q.commands
    ensures c.resolved && !NamesStateDir(c) && CommandClear(st, CallerKey(q.caller), q.root, c) <==> CommandFree(q, st, c)
  {
    var caller := CallerKey(q.caller);
    forall t | t in c.targets
      ensures TargetClear(st, caller, Canonical(q.root, t.resolved)) <==> TargetFree(st, caller, q.root, t.resolved)
    {
      TargetMeaning(st, caller, q.root, t.resolved);
    }
    forall r | r in c.containers
      ensures ContainerClear(st, caller, Canonical(q.root, r)) <==> ContainerFree(st, caller, q.root, r)
    {
      ContainerFreeMeaning(st, caller, q.root, r);
    }
    assert NamesStateDir(c) <==> !(forall t | t in c.targets :: t.lexical.Some? ==> !IsProtectedName(Components(t.lexical.value)[0]));
  }

  /** The gate lets a request through, under whatever reason, if and only if it is
      no shell command or not destructive, or the state is healthy and every
      command is free of protected state, of peers' open invocations and of files
      that other agents have not settled. Everything else it blocks. */
  lemma AllowsExactly(q: Request, st: State)
    requires Listing(st.attribution.order, st.attribution.entries) && KeysOnly(st) && WellNamedAll(q)
    ensures Decide(q, st).Allow? <==>
      !q.shellTool || !q.hasText || q.commands == []
      || (Healthy(st) && forall c | c in q.commands :: CommandFree(q, st, c))
  {
    forall c | c in q.commands
      ensures c.resolved && !NamesStateDir(c) && CommandClear(st, CallerKey(q.caller), q.root, c) <==> CommandFree(q, st, c)
    {
      CommandMeaning(q, st, c);
    }
    AllowsOrPasses(q, st);
  }

  lemma AllowsOrPasses(q: Request, st: State)
    requires Listing(st.attribution.order, st.attribution.entries)
    ensures Decide(q, st).Allow? <==>
      !q.shellTool || !q.hasText || q.commands == []
      || (Healthy(st) && forall c | c in q.commands ::
            c.resolved && !NamesStateDir(c) && CommandClear(st, CallerKey(q.caller), q.root, c))
  {
    FirstUnresolvedMeaning(q.commands);
    CommandsMeaning(st, CallerKey(q.caller), q.root, q.commands);
  }
}
