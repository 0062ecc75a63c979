/** The destructive-command decision that reads the attribution index.

    Models `_decide_r2`, `_owned_by_unsettled_peer` and `_is_path_within_container`
    of core/destructive_guard.py. Parsing the shell text, resolving paths and
    reading open peer invocations are inputs.
  */
module R2Gate {
  import opened Common
  import opened PathAttribution
  import opened AttributionFacts
  import opened LedgerReducer
  import opened LedgerRuns
  import opened Paths

  /** Where a path of a command leads once links are followed: the names from the
      file system's root down. */
  type Place = seq<string>

  datatype Resolved = Failed | At(place: Place)

  /** What the gate makes of it. */
  datatype Disposition = Unresolvable | OutOfRoot | InRoot(key: string)

  /** `lexical` is the in-project key before links are followed, if any. */
  datatype Target = Target(lexical: Option<string>, resolved: Resolved)

  datatype Command = Command(resolved: bool, reason: string, targets: seq<Target>, containers: seq<Resolved>)

  datatype Caller = Caller(host: Option<string>, session: Option<string>, agent: Option<string>)

  /** `root` is where the project lies. */
  datatype Request = Request(shellTool: bool, hasText: bool, commands: seq<Command>, caller: Caller, root: Place)

  /** What the gate learns from the state directory. */
  datatype State = State(
    degraded: bool, healthAvailable: bool, attributionDegraded: bool, lookupAvailable: bool,
    attribution: Attribution, peerCandidates: set<string>)

  datatype Decision = Allow(reason: string) | Block(reason: string)

  // ----- Identities ---------------------------------------------------------

  function Or(v: Option<string>, default: string): string {
    if v.Some? && v.value != "" then v.value else default
  }

  /** The key under which the reducer records an agent. */
  function AgentKey(c: Caller): string {
    Or(c.host, "default") + ":" + Or(c.session, "default") + ":" + Or(c.agent, "default")
  }

  /** The key the gate gives the caller. */
  function CallerKey(c: Caller): string {
    Or(c.host, "unknown") + ":" + Or(c.session, "unknown") + ":" + Or(c.agent, "unknown")
  }

  predicate Present(v: Option<string>) {
    v.Some? && v.value != ""
  }

  /** The two keys agree exactly for a caller whose identity is complete. */
  lemma KeysAgreeExactly(c: Caller)
    ensures CallerKey(c) == AgentKey(c) <==> Present(c.host) && Present(c.session) && Present(c.agent)
  {
    var a, b := CallerKey(c), AgentKey(c);
    if !Present(c.host) {
      assert a[0] == 'u' && b[0] == 'd';
    } else if !Present(c.session) {
      var n := |c.host.value|;
      assert a[n + 1] == 'u' && b[n + 1] == 'd';
    } else if !Present(c.agent) {
      var n := |c.host.value| + 1 + |c.session.value|;
      assert a[n + 1] == 'u' && b[n + 1] == 'd';
    }
  }

  // ----- Containers ---------------------------------------------------------

  function WithoutTrailingSlashes(s: string): string {
    if s != "" && s[|s| - 1] == '/' then WithoutTrailingSlashes(s[..|s| - 1]) else s
  }

  predicate IsWithin(candidate: string, container: string) {
    var scope := WithoutTrailingSlashes(container);
    candidate == scope || scope + "/" <= candidate
  }

  /** A path is within a container exactly when the container's components begin
      the path's: `src` holds `src/a` but not `srcs/a`. A slash at the container's
      end makes no difference. */
  lemma WithinIsComponentPrefix(candidate: string, container: string)
    ensures IsWithin(candidate, container)
      <==> Components(WithoutTrailingSlashes(container)) <= Components(candidate)
    ensures IsWithin(candidate, container + "/") <==> IsWithin(candidate, container)
  {
    assert (container + "/")[..|container|] == container;
    BelowIsComponentPrefix(candidate, WithoutTrailingSlashes(container));
  }

  /** `canonicalize_project_path`: the key relative to the project root, "." for
      the root itself. */
  function Canonical(root: Place, r: Resolved): Disposition {
    match r
    case Failed => Unresolvable
    case At(place) =>
      if !(root <= place) then OutOfRoot
      else if place == root then InRoot(".")
      else InRoot(Joined(place[|root|..]))
  }

  /** The place holds the project's file under this key: its names begin the
      file's. The root and every directory above it hold every file. */
  predicate Holds(root: Place, place: Place, key: string) {
    place <= root + Components(key)
  }

  // ----- The decision -------------------------------------------------------

  predicate IsStateDirKey(key: string) {
    IsProtectedName(Components(key)[0])
  }

  predicate OwnedByUnsettledPeer(a: Attribution, key: string, caller: string) {
    key in a.entries && exists o | o in a.entries[key].owners :: o.agent != caller && !o.settled
  }

  function FirstUnresolved(commands: seq<Command>): Option<string> {
    if commands == [] then None
    else if !commands[0].resolved then Some(commands[0].reason)
    else FirstUnresolved(commands[1..])
  }

  predicate NamesStateDir(c: Command) {
    exists t | t in c.targets :: t.lexical.Some? && IsStateDirKey(t.lexical.value)
  }

  function TargetBlock(st: State, caller: string, d: Disposition): Option<string> {
    match d
    case Unresolvable => Some("canonicalization_unavailable")
    case OutOfRoot => None
    case InRoot(key) =>
      if IsStateDirKey(key) then Some("state_dir_protected")
      else if !st.lookupAvailable then Some("attribution_lookup_unavailable")
      else if OwnedByUnsettledPeer(st.attribution, key, caller) then Some("peer_unsettled_revision")
      else if key in st.peerCandidates then Some("peer_open_invocation_candidate")
      else None
  }

  function TargetsBlock(st: State, caller: string, root: Place, targets: seq<Target>): Option<string> {
    if targets == [] then None else
      var first := TargetBlock(st, caller, Canonical(root, targets[0].resolved));
      if first.Some? then first else TargetsBlock(st, caller, root, targets[1..])
  }

  /** The scan of the index for paths below a container. */
  function HeldBlock(st: State, caller: string, container: string, keys: seq<string>): Option<string> {
    if keys == [] then None
    else if !IsWithin(keys[0], container) then HeldBlock(st, caller, container, keys[1..])
    else if !st.lookupAvailable then Some("attribution_lookup_unavailable")
    else if OwnedByUnsettledPeer(st.attribution, keys[0], caller) then Some("peer_unsettled_revision")
    else HeldBlock(st, caller, container, keys[1..])
  }

  function ContainerBlock(st: State, caller: string, d: Disposition): Option<string> {
    match d
    case Unresolvable => Some("canonicalization_unavailable")
    case OutOfRoot => None
    case InRoot(container) =>
      if exists p | p in st.peerCandidates :: IsWithin(p, container) then Some("peer_open_invocation_candidate")
      else HeldBlock(st, caller, container, st.attribution.order)
  }

  function ContainersBlock(st: State, caller: string, root: Place, containers: seq<Resolved>): Option<string> {
    if containers == [] then None else
      var first := ContainerBlock(st, caller, Canonical(root, containers[0]));
      if first.Some? then first else ContainersBlock(st, caller, root, containers[1..])
  }

  function CommandsBlock(st: State, caller: string, root: Place, commands: seq<Command>): Option<string> {
    if commands == [] then None else
      var targets := TargetsBlock(st, caller, root, commands[0].targets);
      var containers := ContainersBlock(st, caller, root, commands[0].containers);
      if targets.Some? then targets
      else if containers.Some? then containers
      else CommandsBlock(st, caller, root, commands[1..])
  }

  /** `_decide_r2`. */
  function Decide(q: Request, st: State): Decision {
    if !q.shellTool then Allow("not a shell command")
    else if !q.hasText then Allow("no command")
    else if q.commands == [] then Allow("not destructive-shaped")
    else if FirstUnresolved(q.commands).Some? then Block(FirstUnresolved(q.commands).value)
    else if exists c | c in q.commands :: NamesStateDir(c) then Block("state_dir_protected")
    else if st.degraded then Block("ledger_degraded")
    else if !st.healthAvailable then Block("attribution_health_unavailable")
    else if st.attributionDegraded || st.attribution.capacityExceeded then
      Block("attribution_degraded_or_capacity_exceeded")
    else
      match CommandsBlock(st, CallerKey(q.caller), q.root, q.commands)
      case Some(reason) => Block(reason)
      case None => Allow("r2 pass")
  }

  // ----- When it passes -----------------------------------------------------

  ghost predicate TargetClear(st: State, caller: string, d: Disposition) {
    match d
    case Unresolvable => false
    case OutOfRoot => true
    case InRoot(key) =>
      && !IsStateDirKey(key) && st.lookupAvailable && key !in st.peerCandidates
      && !OwnedByUnsettledPeer(st.attribution, key, caller)
  }

  ghost predicate ContainerClear(st: State, caller: string, d: Disposition) {
    match d
    case Unresolvable => false
    case OutOfRoot => true
    case InRoot(c) =>
      && (forall p | p in st.peerCandidates :: !IsWithin(p, c))
      && (forall p | p in st.attribution.entries && IsWithin(p, c) ::
            st.lookupAvailable && !OwnedByUnsettledPeer(st.attribution, p, caller))
  }

  ghost predicate CommandClear(st: State, caller: string, root: Place, c: Command) {
    && (forall t | t in c.targets :: TargetClear(st, caller, Canonical(root, t.resolved)))
    && (forall r | r in c.containers :: ContainerClear(st, caller, Canonical(root, r)))
  }

  lemma {:induction false} FirstUnresolvedMeaning(commands: seq<Command>)
    ensures FirstUnresolved(commands).None? <==> forall c | c in commands :: c.resolved
  {
    if commands != [] {
      FirstUnresolvedMeaning(commands[1..]);
      assert commands == [commands[0]] + commands[1..];
    }
  }

  lemma {:induction false} TargetsMeaning(st: State, caller: string, root: Place, targets: seq<Target>)
    ensures TargetsBlock(st, caller, root, targets).None? <==>
      forall t | t in targets :: TargetClear(st, caller, Canonical(root, t.resolved))
  {
    if targets != [] {
      TargetsMeaning(st, caller, root, targets[1..]);
      assert targets == [targets[0]] + targets[1..];
    }
  }

  lemma {:induction false} HeldMeaning(st: State, caller: string, container: string, keys: seq<string>)
    ensures HeldBlock(st, caller, container, keys).None? <==>
      forall p | p in keys && IsWithin(p, container) ::
        st.lookupAvailable && !OwnedByUnsettledPeer(st.attribution, p, caller)
  {
    if keys != [] {
      HeldMeaning(st, caller, container, keys[1..]);
      assert keys == [keys[0]] + keys[1..];
    }
  }

  lemma ContainerMeaning(st: State, caller: string, d: Disposition)
    requires Listing(st.attribution.order, st.attribution.entries)
    ensures ContainerBlock(st, caller, d).None? <==> ContainerClear(st, caller, d)
  {
    if d.InRoot? {
      HeldMeaning(st, caller, d.key, st.attribution.order);
    }
  }

  lemma {:induction false} ContainersMeaning(st: State, caller: string, root: Place, containers: seq<Resolved>)
    requires Listing(st.attribution.order, st.attribution.entries)
    ensures ContainersBlock(st, caller, root, containers).None? <==>
      forall r | r in containers :: ContainerClear(st, caller, Canonical(root, r))
  {
    if containers != [] {
      ContainerMeaning(st, caller, Canonical(root, containers[0]));
      ContainersMeaning(st, caller, root, containers[1..]);
      assert forall r :: r in containers <==> r == containers[0] || r in containers[1..];
    }
  }

  lemma {:induction false} CommandsMeaning(st: State, caller: string, root: Place, commands: seq<Command>)
    requires Listing(st.attribution.order, st.attribution.entries)
    ensures CommandsBlock(st, caller, root, commands).None? <==> forall c | c in commands :: CommandClear(st, caller, root, c)
  {
    if commands != [] {
      CommandsMeaning(st, caller, root, commands[1..]);
      TargetsMeaning(st, caller, root, commands[0].targets);
      ContainersMeaning(st, caller, root, commands[0].containers);
      assert CommandClear(st, caller, root, commands[0]) <==>
        TargetsBlock(st, caller, root, commands[0].targets).None? && ContainersBlock(st, caller, root, commands[0].containers).None?;
      assert forall c :: c in commands <==> c == commands[0] || c in commands[1..];
    }
  }

  /** The gate passes a destructive command exactly when the state is healthy and
      no target or container of any of its commands meets protected state, an
      open peer invocation or another agent's unsettled revision. */
  lemma PassesExactly(q: Request, st: State)
    requires Listing(st.attribution.order, st.attribution.entries)
    ensures Decide(q, st) == Allow("r2 pass") <==>
      && q.shellTool && q.hasText && q.commands != []
      && (forall c | c in q.commands :: c.resolved && !NamesStateDir(c))
      && !st.degraded && st.healthAvailable && !st.attributionDegraded && !st.attribution.capacityExceeded
      && (forall c | c in q.commands :: CommandClear(st, CallerKey(q.caller), q.root, c))
  {
    FirstUnresolvedMeaning(q.commands);
    CommandsMeaning(st, CallerKey(q.caller), q.root, q.commands);
    var pass, shell, text := "r2 pass", "not a shell command", "no command";
    var shaped := "not destructive-shaped";
    assert |pass| == 7 && |shell| == 19 && |text| == 10 && |shaped| == 22;
  }

  // ----- Containers, independently of the text test -------------------------

  /** A project-relative key: no empty name, and no leading dot. */
  predicate IsKey(key: string) {
    Components(key)[0] != "." && forall n | n in Components(key) :: n != ""
  }

  ghost predicate KeysOnly(st: State) {
    && (forall k | k in st.attribution.entries :: IsKey(k))
    && (forall k | k in st.peerCandidates :: IsKey(k))
  }

  lemma NotSlashed(parts: seq<string>)
    requires parts != [] && (forall n | n in parts :: n != "" && '/' !in n)
    ensures WithoutTrailingSlashes(Joined(parts)) == Joined(parts)
  {
    var last := parts[|parts| - 1];
    assert last in parts && last[|last| - 1] in last;
    LastOfJoined(parts);
  }

  lemma {:induction false} LastOfJoined(parts: seq<string>)
    requires parts != [] && parts[|parts| - 1] != ""
    ensures Joined(parts) != ""
    ensures Joined(parts)[|Joined(parts)| - 1] == parts[|parts| - 1][|parts[|parts| - 1]| - 1]
  {
    if |parts| > 1 {
      LastOfJoined(parts[1..]);
    }
  }

  /** A place inside the project holds exactly what the text test finds in it. */
  lemma InsideHoldsExactly(root: Place, place: Place, key: string)
    requires root < place && forall n | n in place[|root|..] :: n != "" && '/' !in n
    ensures Canonical(root, At(place)).InRoot?
    ensures Holds(root, place, key) <==> IsWithin(key, Canonical(root, At(place)).key)
  {
    var rest := place[|root|..];
    NotSlashed(rest);
    ComponentsOfJoined(rest);
    WithinIsComponentPrefix(key, Joined(rest));
    assert place == root + rest;
    if rest <= Components(key) {
      assert place <= root + Components(key);
    }
    if place <= root + Components(key) {
      assert (root + Components(key))[|root|..] == Components(key);
      assert rest == (root + Components(key))[|root|..|place|];
    }
  }

  lemma NothingInDot(key: string)
    requires IsKey(key)
    ensures !IsWithin(key, ".")
  {
    WithinIsComponentPrefix(key, ".");
    ComponentsOfPlain(".");
  }

  /** Of two beginnings of one list the longer one begins with the shorter. */
  lemma Comparable(a: Place, b: Place, whole: Place)
    requires a <= whole && b <= whole
    ensures a <= b || b <= a
  {
  }

  /** A container that holds another agent's unsettled file is found if and only if
      it lies inside the project: the project root and the directories above it
      hold the file too, and are let through. */
  lemma HoldingContainerBlockedExactly(st: State, caller: string, root: Place, place: Place, key: string, agent: string)
    requires Listing(st.attribution.order, st.attribution.entries) && KeysOnly(st)
    requires Protects(st.attribution, key, agent) && agent != caller && Holds(root, place, key)
    ensures ContainerBlock(st, caller, Canonical(root, At(place))).Some? <==> !(place <= root)
  {
    if place <= root {
      ContainerMeaning(st, caller, Canonical(root, At(place)));
      forall k | k in st.attribution.entries || k in st.peerCandidates ensures !IsWithin(k, ".") {
        NothingInDot(k);
      }
    } else {
      InsideContainerBlocks(st, caller, root, place, key, agent);
    }
  }

  lemma InsideContainerBlocks(st: State, caller: string, root: Place, place: Place, key: string, agent: string)
    requires Listing(st.attribution.order, st.attribution.entries) && IsKey(key)
    requires Protects(st.attribution, key, agent) && agent != caller && Holds(root, place, key) && !(place <= root)
    ensures ContainerBlock(st, caller, Canonical(root, At(place))).Some?
  {
    ContainerMeaning(st, caller, Canonical(root, At(place)));
    Comparable(root, place, root + Components(key));
    InsideNames(root, place, key);
    InsideHoldsExactly(root, place, key);
    assert OwnedByUnsettledPeer(st.attribution, key, caller);
  }

  lemma InsideNames(root: Place, place: Place, key: string)
    requires root <= place && Holds(root, place, key) && IsKey(key)
    ensures forall n | n in place[|root|..] :: n != "" && '/' !in n
  {
    ComponentsHaveNoSlash(key);
    forall n | n in place[|root|..] ensures n in Components(key) {
      var i :| 0 <= i < |place| - |root| && place[|root|..][i] == n;
      assert (root + Components(key))[|root| + i] == place[|root| + i];
      assert Components(key)[i] == n;
    }
  }

  // ----- Protected ownership ------------------------------------------------

  /** Some command of the request targets the file, or a directory of the project
      that holds it. */
  ghost predicate Touches(q: Request, key: string) {
    exists c | c in q.commands ::
      || (exists t | t in c.targets :: t.resolved == At(q.root + Components(key)))
      || (exists r | r in c.containers :: r.At? && Holds(q.root, r.place, key) && !(r.place <= q.root))
  }

  lemma TouchedIsNotClear(q: Request, st: State, c: Command, key: string, agent: string)
    requires Listing(st.attribution.order, st.attribution.entries) && IsKey(key)
    requires Protects(st.attribution, key, agent) && CallerKey(q.caller) != agent
    requires (exists t | t in c.targets :: t.resolved == At(q.root + Components(key)))
          || (exists r | r in c.containers :: r.At? && Holds(q.root, r.place, key) && !(r.place <= q.root))
    ensures !CommandClear(st, CallerKey(q.caller), q.root, c)
  {
    var caller := CallerKey(q.caller);
    assert OwnedByUnsettledPeer(st.attribution, key, caller);
    if t :| t in c.targets && t.resolved == At(q.root + Components(key)) {
      JoinedComponents(key);
      assert (q.root + Components(key))[|q.root|..] == Components(key);
      assert !TargetClear(st, caller, Canonical(q.root, t.resolved));
    } else {
      var r :| r in c.containers && r.At? && Holds(q.root, r.place, key) && !(r.place <= q.root);
      InsideContainerBlocks(st, caller, q.root, r.place, key, agent);
      ContainerMeaning(st, caller, Canonical(q.root, r));
    }
  }

  /** An unsettled revision of a file blocks every other caller whose destructive
      command touches it. */
  lemma ProtectedPathBlocks(q: Request, st: State, key: string, agent: string)
    requires Listing(st.attribution.order, st.attribution.entries) && IsKey(key)
    requires Protects(st.attribution, key, agent) && CallerKey(q.caller) != agent
    requires q.shellTool && q.hasText && Touches(q, key)
    ensures Decide(q, st).Block?
  {
    var c :| c in q.commands
      && ((exists t | t in c.targets :: t.resolved == At(q.root + Components(key)))
          || (exists r | r in c.containers :: r.At? && Holds(q.root, r.place, key) && !(r.place <= q.root)));
    TouchedIsNotClear(q, st, c, key, agent);
    CommandsMeaning(st, CallerKey(q.caller), q.root, q.commands);
  }

  /** Over a whole run: from a listed unsettled revision on, and as long as no
      step releases it, every such request of every other caller is blocked, at
      every point of the run and whatever else the gate reads. */
  lemma ProtectedUntilReleasedBlocks(l: Ledger, steps: seq<Step>, n: nat, path: string, agent: string, q: Request, st: State)
    requires IndexOk(l.attribution) && Protects(l.attribution, path, agent) && IsKey(path)
    requires n <= |steps|
    requires forall m | 0 <= m < n :: !Releases(RunFrom(l, steps[..m]), steps[m], path, agent)
    requires st.attribution == RunFrom(l, steps[..n]).attribution
    requires CallerKey(q.caller) != agent && q.shellTool && q.hasText && Touches(q, path)
    ensures Decide(q, st).Block?
  {
    var taken := steps[..n];
    forall m | 0 <= m < |taken| ensures !Releases(RunFrom(l, taken[..m]), taken[m], path, agent) {
      assert taken[..m] == steps[..m];
    }
    ProtectedUntilReleased(l, taken, path, agent);
    ProtectedPathBlocks(q, st, path, agent);
  }

  /** A caller that leaves out part of its identity is blocked by its own
      unsettled revisions, because it is recorded under one key and judged under
      another. */
  lemma IncompleteCallerIsItsOwnPeer(q: Request, st: State, path: string)
    requires Listing(st.attribution.order, st.attribution.entries) && IsKey(path)
    requires Protects(st.attribution, path, AgentKey(q.caller))
    requires q.shellTool && q.hasText && Touches(q, path)
    requires !(Present(q.caller.host) && Present(q.caller.session) && Present(q.caller.agent))
    ensures Decide(q, st).Block?
  {
    KeysAgreeExactly(q.caller);
    ProtectedPathBlocks(q, st, path, AgentKey(q.caller));
  }

  // ----- Deleting from above ------------------------------------------------

  const OWNED := PathEntry(1, Exclusive, [Owner("h:s:peer", "t", 1, 1, "d", "i", false)], false)
  const INDEX := Attribution(["f"], map["f" := OWNED], false)
  const HEALTHY := State(false, true, false, true, INDEX, {})
  const PROJECT: Place := ["home", "project"]

  /** A command that removes one directory, by a caller other than the owner of
      the file "f". */
  function Removing(place: Place): Request {
    Request(true, true, [Command(true, "", [Target(None, At(place))], [At(place)])],
            Caller(Some("h"), Some("s"), Some("other")), PROJECT)
  }

  lemma FileIsKey()
    ensures Components("f") == ["f"] && IsKey("f")
  {
    ComponentsOfPlain("f");
  }

  /** Removing the project root, named as `src/..`, passes while the file another
      agent has not settled lies in it. */
  lemma RemovingTheRootPasses()
    ensures Protects(INDEX, "f", "h:s:peer") && Holds(PROJECT, PROJECT, "f")
    ensures Decide(Removing(PROJECT), HEALTHY) == Allow("r2 pass")
  {
    FileIsKey();
    NothingInDot("f");
    ComponentsOfPlain(".");
    PassesFromAbove(PROJECT);
  }

  /** And so does removing the directory above it. */
  lemma RemovingAboveTheRootPasses()
    ensures Holds(PROJECT, ["home"], "f") && Canonical(PROJECT, At(["home"])) == OutOfRoot
    ensures Decide(Removing(["home"]), HEALTHY) == Allow("r2 pass")
  {
    FileIsKey();
    PassesFromAbove(["home"]);
  }

  lemma PassesFromAbove(place: Place)
    requires place <= PROJECT
    ensures Decide(Removing(place), HEALTHY) == Allow("r2 pass")
  {
    var q := Removing(place);
    FileIsKey();
    NothingInDot("f");
    ComponentsOfPlain(".");
    var d := Canonical(PROJECT, At(place));
    assert TargetClear(HEALTHY, CallerKey(q.caller), d) && ContainerClear(HEALTHY, CallerKey(q.caller), d);
    PassesExactly(q, HEALTHY);
  }
}
