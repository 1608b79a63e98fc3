/** The lock protocol between the lazy start of an ingest's ffmpeg child and its teardown. Tasks interleave at every
  * await: a step below is what one task does between two of them. Children are opaque tokens. */
module IngestLocks {
  import opened Wrappers
  import opened TagReader

  type Pid = nat
  type Child = nat
  type Peer = nat

  /** Where a starter stands: it has spawned its child, takes the normalizers lock, checks for the peer, and either
    * gives up (dropping the lock, then the child) or replaces whatever is registered. */
  datatype StartPc =
    | Spawned | Locked
    | Rejected | Dropping | Dropped
    | PeerSeen | Replacing(previous: Option<Child>) | OldKilled | Inserted | Started

  /** Where a teardown stands: it takes the lock, removes and kills the child, removes the peer, and releases. */
  datatype StopPc = Waiting | Holding | Killing(child: Option<Child>) | ChildGone | PeerGone | Stopped

  /** A starter works for the peer whose track it forwards. A teardown that leaves the peer alone is one of the
    * other paths that remove a registered child. */
  datatype Task =
    | Start(source: SourceId, child: Child, peer: Peer, start: StartPc)
    | Stop(source: SourceId, dropsPeer: bool, stop: StopPc)

  /** The ledger of spawned children. */
  datatype Place = Local(owner: Pid) | Registered(source: SourceId) | InHand(holder: Pid) | Dead

  datatype State = State(
    lock: Option<Pid>, normalizers: map<SourceId, Child>, peers: map<SourceId, Peer>,
    tasks: map<Pid, Task>, ledger: map<Child, Place>)

  const INITIAL := State(None, map[], map[], map[], map[])

  datatype Action =
    | SpawnChild(pid: Pid, source: SourceId, child: Child, peer: Peer)
    | BeginStop(pid: Pid, source: SourceId, dropsPeer: bool)
    | InsertPeer(source: SourceId, peer: Peer)
    | Advance(pid: Pid)

  // ---------- the transition function ----------

  function Step(s: State, a: Action): State {
    match a
    case SpawnChild(pid, source, child, peer) =>
      if pid in s.tasks || child in s.ledger then s
      else s.(tasks := s.tasks[pid := Start(source, child, peer, Spawned)], ledger := s.ledger[child := Local(pid)])
    case BeginStop(pid, source, dropsPeer) =>
      if pid in s.tasks then s else s.(tasks := s.tasks[pid := Stop(source, dropsPeer, Waiting)])
    case InsertPeer(source, peer) => s.(peers := s.peers[source := peer])
    case Advance(pid) =>
      if pid !in s.tasks then s
      else match s.tasks[pid]
        case Start(source, child, peer, pc) => AdvanceStart(s, pid, source, child, peer, pc)
        case Stop(source, dropsPeer, pc) => AdvanceStop(s, pid, source, dropsPeer, pc)
  }

  function AdvanceStart(s: State, pid: Pid, source: SourceId, child: Child, peer: Peer, pc: StartPc): State {
    var at := (next: StartPc) => s.tasks[pid := Start(source, child, peer, next)];
    match pc
    case Spawned => if s.lock.None? then s.(lock := Some(pid), tasks := at(Locked)) else s
    case Locked => s.(tasks := at(if source in s.peers then PeerSeen else Rejected))
    case Rejected => s.(lock := None, tasks := at(Dropping))
    case Dropping => s.(tasks := at(Dropped), ledger := s.ledger[child := Dead])
    case PeerSeen => TakeOut(s.(tasks := at(Replacing(Entry(s, source)))), pid, source)
    case Replacing(previous) => Kill(s.(tasks := at(OldKilled)), previous)
    case OldKilled => s.(tasks := at(Inserted), normalizers := s.normalizers[source := child],
        ledger := s.ledger[child := Registered(source)])
    case Inserted => s.(lock := None, tasks := at(Started))
    case _ => s
  }

  function AdvanceStop(s: State, pid: Pid, source: SourceId, dropsPeer: bool, pc: StopPc): State {
    var at := (next: StopPc) => s.tasks[pid := Stop(source, dropsPeer, next)];
    match pc
    case Waiting => if s.lock.None? then s.(lock := Some(pid), tasks := at(Holding)) else s
    case Holding => TakeOut(s.(tasks := at(Killing(Entry(s, source)))), pid, source)
    case Killing(child) => Kill(s.(tasks := at(ChildGone)), child)
    case ChildGone => s.(tasks := at(PeerGone), peers := if dropsPeer then s.peers - {source} else s.peers)
    case PeerGone => s.(lock := None, tasks := at(Stopped))
    case Stopped => s
  }

  function Entry(s: State, source: SourceId): Option<Child> {
    if source in s.normalizers then Some(s.normalizers[source]) else None
  }

  /** Remove the registered child of a source from the map; whoever removed it now holds it. */
  function TakeOut(s: State, pid: Pid, source: SourceId): State {
    if source in s.normalizers then
      s.(normalizers := s.normalizers - {source}, ledger := s.ledger[s.normalizers[source] := InHand(pid)])
    else s
  }

  function Kill(s: State, child: Option<Child>): State {
    if child.Some? then s.(ledger := s.ledger[child.value := Dead]) else s
  }

  function Run(s: State, actions: seq<Action>): State {
    if actions == [] then s else Step(Run(s, actions[..|actions| - 1]), actions[|actions| - 1])
  }

  // ---------- the invariant ----------

  predicate HoldsLock(t: Task) {
    match t
    case Start(_, _, _, pc) => pc.Locked? || pc.Rejected? || pc.PeerSeen? || pc.Replacing? || pc.OldKilled?
        || pc.Inserted?
    case Stop(_, _, pc) => pc.Holding? || pc.Killing? || pc.ChildGone? || pc.PeerGone?
  }

  /** The child a task alone knows of. */
  predicate OwnsLocally(t: Task, child: Child) {
    t.Start? && t.child == child && !t.start.Inserted? && !t.start.Started? && !t.start.Dropped?
  }

  predicate HasInHand(t: Task, child: Child) {
    match t
    case Start(_, _, _, pc) => pc == Replacing(Some(child))
    case Stop(_, _, pc) => pc == Killing(Some(child))
  }

  /** One holder, and the lock says which. */
  ghost predicate LockOk(s: State) {
    && (forall p | p in s.tasks && HoldsLock(s.tasks[p]) :: s.lock == Some(p))
    && (s.lock.Some? ==> s.lock.value in s.tasks && HoldsLock(s.tasks[s.lock.value]))
  }

  /** The ledger tells the truth about every child. */
  ghost predicate LedgerOk(s: State) {
    && (forall id | id in s.normalizers :: s.normalizers[id] in s.ledger
          && s.ledger[s.normalizers[id]] == Registered(id))
    && (forall p | p in s.tasks :: OwnChildrenRecorded(s, p, s.tasks[p]))
    && (forall c | c in s.ledger :: Accounted(s, c, s.ledger[c]))
  }

  predicate OwnChildrenRecorded(s: State, p: Pid, t: Task) {
    match t
    case Start(_, child, _, pc) =>
      && (OwnsLocally(t, child) ==> child in s.ledger && s.ledger[child] == Local(p))
      && (pc.Dropped? ==> child in s.ledger && s.ledger[child] == Dead)
      && (pc.Replacing? && pc.previous.Some? ==>
            pc.previous.value in s.ledger && s.ledger[pc.previous.value] == InHand(p))
    case Stop(_, _, pc) =>
      pc.Killing? && pc.child.Some? ==> pc.child.value in s.ledger && s.ledger[pc.child.value] == InHand(p)
  }

  predicate Accounted(s: State, c: Child, place: Place) {
    match place
    case Local(p) => p in s.tasks && OwnsLocally(s.tasks[p], c)
    case Registered(id) => id in s.normalizers && s.normalizers[id] == c
    case InHand(p) => p in s.tasks && HasInHand(s.tasks[p], c)
    case Dead => true
  }

  /** No registered child without a registered peer; and what the lock holder has established so far. */
  ghost predicate PeersOk(s: State) {
    && (forall id | id in s.normalizers :: id in s.peers)
    && (forall p | p in s.tasks :: HolderKnows(s, s.tasks[p]))
  }

  predicate HolderKnows(s: State, t: Task) {
    match t
    case Start(source, _, _, pc) =>
      && (pc.PeerSeen? || pc.Replacing? || pc.OldKilled? || pc.Inserted? ==> source in s.peers)
      && (pc.Replacing? || pc.OldKilled? ==> source !in s.normalizers)
      && (pc.Inserted? ==> source in s.normalizers && s.normalizers[source] == t.child)
    case Stop(source, _, pc) => pc.Killing? || pc.ChildGone? || pc.PeerGone? ==> source !in s.normalizers
  }

  ghost predicate Inv(s: State) { LockOk(s) && LedgerOk(s) && PeersOk(s) }

  // ---------- every step keeps it ----------

  lemma StartKeepsLock(s: State, pid: Pid)
    requires LockOk(s) && pid in s.tasks && s.tasks[pid].Start?
    ensures LockOk(Step(s, Advance(pid)))
  {
  }

  lemma StopKeepsLock(s: State, pid: Pid)
    requires LockOk(s) && pid in s.tasks && s.tasks[pid].Stop?
    ensures LockOk(Step(s, Advance(pid)))
  {
  }

  lemma StartKeepsPeers(s: State, pid: Pid)
    requires LockOk(s) && PeersOk(s) && pid in s.tasks && s.tasks[pid].Start?
    ensures PeersOk(Step(s, Advance(pid)))
  {
  }

  lemma StopKeepsPeers(s: State, pid: Pid)
    requires LockOk(s) && PeersOk(s) && pid in s.tasks && s.tasks[pid].Stop?
    ensures PeersOk(Step(s, Advance(pid)))
  {
  }

  /** Steps of a starter that move no child. */
  lemma StartQuietly(s: State, pid: Pid)
    requires LedgerOk(s) && pid in s.tasks && s.tasks[pid].Start?
    requires var pc := s.tasks[pid].start; !pc.Dropping? && !pc.PeerSeen? && !pc.Replacing? && !pc.OldKilled?
    ensures LedgerOk(Step(s, Advance(pid)))
  {
  }

  lemma StartDropsChild(s: State, pid: Pid)
    requires LedgerOk(s) && pid in s.tasks && s.tasks[pid].Start? && s.tasks[pid].start.Dropping?
    ensures LedgerOk(Step(s, Advance(pid)))
  {
  }

  lemma StartTakesOut(s: State, pid: Pid)
    requires LedgerOk(s) && pid in s.tasks && s.tasks[pid].Start? && s.tasks[pid].start.PeerSeen?
    ensures LedgerOk(Step(s, Advance(pid)))
  {
  }

  lemma StartKillsPrevious(s: State, pid: Pid)
    requires LedgerOk(s) && pid in s.tasks && s.tasks[pid].Start? && s.tasks[pid].start.Replacing?
    ensures LedgerOk(Step(s, Advance(pid)))
  {
  }

  lemma StartRegisters(s: State, pid: Pid)
    requires LedgerOk(s) && pid in s.tasks && s.tasks[pid].Start? && s.tasks[pid].start.OldKilled?
    requires s.tasks[pid].source !in s.normalizers
    ensures LedgerOk(Step(s, Advance(pid)))
  {
  }

  lemma StartKeepsLedger(s: State, pid: Pid)
    requires LedgerOk(s) && PeersOk(s) && pid in s.tasks && s.tasks[pid].Start?
    ensures LedgerOk(Step(s, Advance(pid)))
  {
    hide LedgerOk, Step;
    match s.tasks[pid].start {
      case Dropping => StartDropsChild(s, pid);
      case PeerSeen => StartTakesOut(s, pid);
      case Replacing(_) => StartKillsPrevious(s, pid);
      case OldKilled => StartRegisters(s, pid);
      case _ => StartQuietly(s, pid);
    }
  }

  /** A teardown that holds no child, before and after, leaves the ledger as true as it was. */
  lemma StopMovesOn(s: State, t: State, pid: Pid)
    requires LedgerOk(s) && pid in s.tasks && s.tasks[pid].Stop? && !s.tasks[pid].stop.Killing?
    requires pid in t.tasks && t.tasks[pid].Stop? && !t.tasks[pid].stop.Killing?
    requires t == s.(lock := t.lock, peers := t.peers, tasks := s.tasks[pid := t.tasks[pid]])
    ensures LedgerOk(t)
  {
  }

  lemma StopQuietly(s: State, pid: Pid)
    requires LedgerOk(s) && pid in s.tasks && s.tasks[pid].Stop?
    requires !s.tasks[pid].stop.Holding? && !s.tasks[pid].stop.Killing?
    ensures LedgerOk(Step(s, Advance(pid)))
  {
    hide LedgerOk;
    var t := Step(s, Advance(pid));
    assert t == s || t.tasks == s.tasks[pid := t.tasks[pid]];
    if t != s {
      StopMovesOn(s, t, pid);
    }
  }

  lemma StopTakesOut(s: State, pid: Pid)
    requires LedgerOk(s) && pid in s.tasks && s.tasks[pid].Stop? && s.tasks[pid].stop.Holding?
    ensures LedgerOk(Step(s, Advance(pid)))
  {
  }

  lemma StopKillsChild(s: State, pid: Pid)
    requires LedgerOk(s) && pid in s.tasks && s.tasks[pid].Stop? && s.tasks[pid].stop.Killing?
    ensures LedgerOk(Step(s, Advance(pid)))
  {
  }

  lemma StopKeepsLedger(s: State, pid: Pid)
    requires LedgerOk(s) && pid in s.tasks && s.tasks[pid].Stop?
    ensures LedgerOk(Step(s, Advance(pid)))
  {
    hide LedgerOk, Step;
    match s.tasks[pid].stop {
      case Holding => StopTakesOut(s, pid);
      case Killing(_) => StopKillsChild(s, pid);
      case _ => StopQuietly(s, pid);
    }
  }

  lemma BeginningKeepsLock(s: State, a: Action)
    requires LockOk(s) && !a.Advance?
    ensures LockOk(Step(s, a))
  {
  }

  lemma BeginningKeepsLedger(s: State, a: Action)
    requires LedgerOk(s) && !a.Advance?
    ensures LedgerOk(Step(s, a))
  {
  }

  lemma BeginningKeepsPeers(s: State, a: Action)
    requires PeersOk(s) && !a.Advance?
    ensures PeersOk(Step(s, a))
  {
  }

  lemma BeginningKeepsInv(s: State, a: Action)
    requires Inv(s) && !a.Advance?
    ensures Inv(Step(s, a))
  {
    hide LockOk, LedgerOk, PeersOk, Step;
    BeginningKeepsLock(s, a);
    BeginningKeepsLedger(s, a);
    BeginningKeepsPeers(s, a);
  }

  lemma {:induction false} RunKeepsInv(actions: seq<Action>)
    ensures Inv(Run(INITIAL, actions))
  {
    hide Inv, Step;
    if actions == [] {
      InitialOk();
    } else {
      RunKeepsInv(actions[..|actions| - 1]);
      StepKeepsInv(Run(INITIAL, actions[..|actions| - 1]), actions[|actions| - 1]);
    }
  }

  lemma InitialOk()
    ensures Inv(INITIAL)
  {
  }

  lemma StepKeepsInv(s: State, a: Action)
    requires Inv(s)
    ensures Inv(Step(s, a))
  {
    hide LockOk, LedgerOk, PeersOk, AdvanceStart, AdvanceStop;
    if !a.Advance? {
      BeginningKeepsInv(s, a);
    } else if a.pid in s.tasks {
      if s.tasks[a.pid].Start? {
        StartKeepsLock(s, a.pid);
        StartKeepsPeers(s, a.pid);
        StartKeepsLedger(s, a.pid);
      } else {
        StopKeepsLock(s, a.pid);
        StopKeepsPeers(s, a.pid);
        StopKeepsLedger(s, a.pid);
      }
    }
  }

  // ---------- the theorems ----------

  /** No orphan: under any interleaving of starts, peer drops, watchdogs and deletes, a registered child has a
    * registered peer, whether or not the lock is free. */
  lemma NoOrphan(actions: seq<Action>, id: SourceId)
    requires id in Run(INITIAL, actions).normalizers
    ensures id in Run(INITIAL, actions).peers
  {
    RunKeepsInv(actions);
  }

  /** Every child ever spawned is local to its starter, registered under its source, or dead; only while the lock is
    * held can one be in the hands of the holder, about to be killed. A registered child is never a dead one. */
  lemma EveryChildAccounted(actions: seq<Action>, c: Child)
    requires c in Run(INITIAL, actions).ledger
    ensures var s := Run(INITIAL, actions);
            && Accounted(s, c, s.ledger[c])
            && (s.lock.None? ==> !s.ledger[c].InHand?)
            && ((exists id :: id in s.normalizers && s.normalizers[id] == c) <==> s.ledger[c].Registered?)
  {
    RunKeepsInv(actions);
  }

  /** When a teardown that drops the peer is about to release the lock, the source has no registered child; the next
    * registration has to find a peer inserted since. */
  lemma TeardownIsComplete(actions: seq<Action>, pid: Pid)
    requires var s := Run(INITIAL, actions); pid in s.tasks && s.tasks[pid].Stop? && s.tasks[pid].stop.PeerGone?
    ensures var s := Run(INITIAL, actions);
            && s.tasks[pid].source !in s.normalizers
            && Step(s, Advance(pid)).lock == None
            && s.tasks[pid].source !in Step(s, Advance(pid)).normalizers
  {
    RunKeepsInv(actions);
  }

  /** Registering a child requires the peer at that very step, not merely at the earlier check. */
  lemma RegistrationFindsPeer(actions: seq<Action>, a: Action, id: SourceId)
    requires var s := Run(INITIAL, actions); Entry(Step(s, a), id) != Entry(s, id) && id in Step(s, a).normalizers
    ensures id in Run(INITIAL, actions).peers
  {
    RunKeepsInv(actions);
  }

  /** A start that found its peer leaves its own child registered when it releases the lock; one that did not leaves its
    * child dead. The peer's presence under the lock alone decides which. */
  lemma StartSettles(actions: seq<Action>, pid: Pid)
    requires pid in Run(INITIAL, actions).tasks && Run(INITIAL, actions).tasks[pid].Start?
    ensures var s := Run(INITIAL, actions);
            var t := s.tasks[pid];
            && (t.start.Locked? ==>
                  Step(s, Advance(pid)).tasks[pid].start == if t.source in s.peers then PeerSeen else Rejected)
            && (t.start.Inserted? ==>
                  Entry(s, t.source) == Some(t.child) && Entry(Step(s, Advance(pid)), t.source) == Some(t.child))
            && (t.start.Dropped? ==> t.child in s.ledger && s.ledger[t.child] == Dead)
  {
    hide LockOk, Accounted, Run;
    RunKeepsInv(actions);
  }

  // ---------- whose child is registered ----------

  /** The peer inserted last for a source. */
  function LastInserted(actions: seq<Action>, source: SourceId): Option<Peer> {
    if actions == [] then None
    else
      var last := actions[|actions| - 1];
      if last.InsertPeer? && last.source == source then Some(last.peer)
      else LastInserted(actions[..|actions| - 1], source)
  }

  lemma {:induction false} PeerIsLastInserted(actions: seq<Action>, id: SourceId)
    requires id in Run(INITIAL, actions).peers
    ensures LastInserted(actions, id) == Some(Run(INITIAL, actions).peers[id])
  {
    hide Step;
    if actions != [] {
      var before, a := actions[..|actions| - 1], actions[|actions| - 1];
      PeersOnlyByInsertion(Run(INITIAL, before), a, id);
      if !(a.InsertPeer? && a.source == id) {
        PeerIsLastInserted(before, id);
      }
    }
  }

  lemma PeersOnlyByInsertion(s: State, a: Action, id: SourceId)
    requires id in Step(s, a).peers
    ensures if a.InsertPeer? && a.source == id then Step(s, a).peers[id] == a.peer
            else id in s.peers && Step(s, a).peers[id] == s.peers[id]
  {
  }

  /** At the step that registers a child, it is the current peer's if and only if no other peer has been inserted
    * for the source since the starter's own: the check under the lock asks for a peer, not for this one. */
  lemma RegistersForOwnPeerExactly(actions: seq<Action>, pid: Pid)
    requires pid in Run(INITIAL, actions).tasks
    requires Run(INITIAL, actions).tasks[pid].Start? && Run(INITIAL, actions).tasks[pid].start.OldKilled?
    ensures var s := Run(INITIAL, actions);
            var t := s.tasks[pid];
            && Entry(Step(s, Advance(pid)), t.source) == Some(t.child)
            && t.source in Step(s, Advance(pid)).peers
            && (Step(s, Advance(pid)).peers[t.source] == t.peer <==> LastInserted(actions, t.source) == Some(t.peer))
  {
    hide LockOk, LedgerOk, Run, LastInserted;
    RunKeepsInv(actions);
    PeerIsLastInserted(actions, Run(INITIAL, actions).tasks[pid].source);
  }

  /** A starter that finds any peer at its source, its own or a later one, replaces and kills whatever is registered. */
  lemma StarterReplaces(s: State, pid: Pid)
    requires s.lock.None? && pid in s.tasks && s.tasks[pid].Start? && s.tasks[pid].start.Spawned?
    requires s.tasks[pid].source in s.peers && Entry(s, s.tasks[pid].source) != Some(s.tasks[pid].child)
    ensures var t := s.tasks[pid];
            var a := Advance(pid);
            var end := Step(Step(Step(Step(Step(Step(s, a), a), a), a), a), a);
            && end.lock == None && end.peers == s.peers && Entry(end, t.source) == Some(t.child)
            && (Entry(s, t.source).Some? ==>
                  Entry(s, t.source).value in end.ledger && end.ledger[Entry(s, t.source).value] == Dead)
  {
    hide Step;
    var t, a := s.tasks[pid], Advance(pid);
    var s3 := Step(Step(Step(s, a), a), a);
    TakesOver(s, pid);
    Replaces(s3, pid, Entry(s, t.source));
  }

  lemma TakesOver(s: State, pid: Pid)
    requires s.lock.None? && pid in s.tasks && s.tasks[pid].Start? && s.tasks[pid].start.Spawned?
    requires s.tasks[pid].source in s.peers
    ensures var t, a := s.tasks[pid], Advance(pid);
            var s3 := Step(Step(Step(s, a), a), a);
            && s3.peers == s.peers && pid in s3.tasks && s3.tasks[pid] == t.(start := Replacing(Entry(s, t.source)))
  {
    var t, a := s.tasks[pid], Advance(pid);
    var s1 := s.(lock := Some(pid), tasks := s.tasks[pid := t.(start := Locked)]);
    var s2 := s.(lock := Some(pid), tasks := s1.tasks[pid := t.(start := PeerSeen)]);
    assert Step(s, a) == s1;
    assert Step(s1, a) == s2;
  }

  lemma Replaces(s: State, pid: Pid, previous: Option<Child>)
    requires pid in s.tasks && s.tasks[pid].Start? && s.tasks[pid].start == Replacing(previous)
    requires previous != Some(s.tasks[pid].child)
    ensures var t, a := s.tasks[pid], Advance(pid);
            var end := Step(Step(Step(s, a), a), a);
            && end.lock == None && end.peers == s.peers && Entry(end, t.source) == Some(t.child)
            && (previous.Some? ==> previous.value in end.ledger && end.ledger[previous.value] == Dead)
  {
    var t, a := s.tasks[pid], Advance(pid);
    var s1 := Kill(s.(tasks := s.tasks[pid := t.(start := OldKilled)]), previous);
    var s2 := s1.(tasks := s1.tasks[pid := t.(start := Inserted)], normalizers := s.normalizers[t.source := t.child],
                  ledger := s1.ledger[t.child := Registered(t.source)]);
    assert Step(s, a) == s1;
    assert Step(s1, a) == s2;
  }

  // ---------- registered children and their peers, at every moment ----------

  /** The peer whose track a child was spawned for. */
  function SpawnedFor(actions: seq<Action>, c: Child): Option<Peer> {
    if actions == [] then None
    else
      var before, a := actions[..|actions| - 1], actions[|actions| - 1];
      if a.SpawnChild? && a.child == c && a.pid !in Run(INITIAL, before).tasks && c !in Run(INITIAL, before).ledger
      then Some(a.peer) else SpawnedFor(before, c)
  }

  /** The action is the check, under the lock, by which the starter of c finds a peer at the source. */
  predicate Checks(s: State, a: Action, c: Child, id: SourceId) {
    && a.Advance? && a.pid in s.tasks && s.tasks[a.pid].Start? && s.tasks[a.pid].start.Locked?
    && s.tasks[a.pid].child == c && s.tasks[a.pid].source == id && id in s.peers
  }

  /** What became of a child's check: the peer found, and the one inserted last since. */
  datatype Check = NotYet | Checked(found: Peer, since: Option<Peer>)

  function CheckOf(actions: seq<Action>, c: Child, id: SourceId): Check {
    if actions == [] then NotYet
    else
      var before, a := actions[..|actions| - 1], actions[|actions| - 1];
      var s := Run(INITIAL, before);
      if Checks(s, a, c, id) then Checked(s.peers[id], None)
      else if a.InsertPeer? && a.source == id && CheckOf(before, c, id).Checked?
      then Checked(CheckOf(before, c, id).found, Some(a.peer))
      else CheckOf(before, c, id)
  }

  /** The peer of the source now, as the check and the insertions since tell. */
  predicate Tells(check: Check, s: State, id: SourceId) {
    check.Checked? && id in s.peers && s.peers[id] == check.since.GetOr(check.found)
  }

  predicate PastCheck(t: Task, id: SourceId) {
    t.Start? && t.source == id && (t.start.PeerSeen? || t.start.Replacing? || t.start.OldKilled? || t.start.Inserted?)
  }

  /** The child is registered, or its starter has passed the check and holds the lock. */
  ghost predicate Relevant(s: State, c: Child, id: SourceId) {
    || Entry(s, id) == Some(c)
    || (exists p | p in s.tasks :: PastCheck(s.tasks[p], id) && s.tasks[p].child == c)
  }

  lemma EntryByStarter(s: State, a: Action, c: Child, id: SourceId)
    requires Entry(Step(s, a), id) == Some(c) && Entry(s, id) != Some(c)
    ensures a.Advance? && a.pid in s.tasks && PastCheck(s.tasks[a.pid], id) && s.tasks[a.pid].child == c
  {
  }

  lemma OtherTasksStay(s: State, a: Action, p: Pid)
    requires p in Step(s, a).tasks && !(a.Advance? && a.pid == p)
    ensures if p in s.tasks then Step(s, a).tasks[p] == s.tasks[p]
            else match Step(s, a).tasks[p] case Start(_, _, _, pc) => pc.Spawned? case Stop(_, _, pc) => pc.Waiting?
  {
  }

  /** A starter gets past the check by the check. */
  lemma OwnStepChecks(s: State, p: Pid, c: Child, id: SourceId)
    requires p in s.tasks && s.tasks[p].Start?
    ensures p in Step(s, Advance(p)).tasks && Step(s, Advance(p)).tasks[p].Start?
    ensures Step(s, Advance(p)).tasks[p].child == s.tasks[p].child
    ensures PastCheck(Step(s, Advance(p)).tasks[p], id) && s.tasks[p].child == c ==>
              PastCheck(s.tasks[p], id) || Checks(s, Advance(p), c, id)
  {
  }

  lemma PastCheckByCheck(s: State, a: Action, c: Child, id: SourceId, p: Pid)
    requires p in Step(s, a).tasks && PastCheck(Step(s, a).tasks[p], id) && Step(s, a).tasks[p].child == c
    ensures (p in s.tasks && PastCheck(s.tasks[p], id) && s.tasks[p].child == c) || Checks(s, a, c, id)
  {
    hide Step, Checks;
    if a.Advance? && a.pid == p {
      StopStaysStop(s, p);
      OwnStepChecks(s, p, c, id);
    } else {
      OtherTasksStay(s, a, p);
    }
  }

  lemma StopStaysStop(s: State, p: Pid)
    requires p in Step(s, Advance(p)).tasks && Step(s, Advance(p)).tasks[p].Start?
    ensures p in s.tasks && s.tasks[p].Start?
  {
  }

  /** A child becomes relevant by its check alone. */
  lemma RelevantByCheck(s: State, a: Action, c: Child, id: SourceId)
    requires Relevant(Step(s, a), c, id)
    ensures Relevant(s, c, id) || Checks(s, a, c, id)
  {
    hide Step, Checks;
    var t := Step(s, a);
    if Entry(t, id) == Some(c) {
      if Entry(s, id) != Some(c) {
        EntryByStarter(s, a, c, id);
      }
    } else {
      var p :| p in t.tasks && PastCheck(t.tasks[p], id) && t.tasks[p].child == c;
      PastCheckByCheck(s, a, c, id, p);
    }
  }

  /** A teardown removes a peer only when no child of the source is relevant. */
  lemma TeardownFindsNone(s: State, pid: Pid, c: Child, id: SourceId)
    requires LockOk(s) && PeersOk(s) && pid in s.tasks && s.tasks[pid].Stop? && s.tasks[pid].stop.ChildGone?
    requires s.tasks[pid].source == id
    ensures !Relevant(s, c, id)
  {
    assert HoldsLock(s.tasks[pid]) && HolderKnows(s, s.tasks[pid]);
  }

  /** While a child is relevant, the peer of its source changes by insertion alone. */
  lemma PeerStays(s: State, a: Action, c: Child, id: SourceId)
    requires LockOk(s) && PeersOk(s) && (Relevant(s, c, id) || Checks(s, a, c, id)) && id in s.peers
    requires !(a.InsertPeer? && a.source == id)
    ensures id in Step(s, a).peers && Step(s, a).peers[id] == s.peers[id]
  {
    hide Relevant, LockOk, PeersOk;
    if a.Advance? && a.pid in s.tasks && s.tasks[a.pid].Stop? && s.tasks[a.pid].stop.ChildGone?
       && s.tasks[a.pid].source == id {
      TeardownFindsNone(s, a.pid, c, id);
    }
  }

  lemma RelevantHasPeer(s: State, c: Child, id: SourceId)
    requires PeersOk(s) && Relevant(s, c, id)
    ensures id in s.peers
  {
    if Entry(s, id) != Some(c) {
      var p :| p in s.tasks && PastCheck(s.tasks[p], id) && s.tasks[p].child == c;
      assert HolderKnows(s, s.tasks[p]);
    }
  }

  /** From the check on, while its child is registered or about to be, the source's peer is the one found, unless
    * another has been inserted since. */
  lemma {:induction false} CheckTells(actions: seq<Action>, c: Child, id: SourceId)
    requires Relevant(Run(INITIAL, actions), c, id)
    ensures Tells(CheckOf(actions, c, id), Run(INITIAL, actions), id)
  {
    hide LockOk, LedgerOk, PeersOk, Relevant, Step;
    if actions == [] {
      NobodyRelevant(c, id);
    } else {
      var before, a := actions[..|actions| - 1], actions[|actions| - 1];
      var s := Run(INITIAL, before);
      RunKeepsInv(before);
      RelevantByCheck(s, a, c, id);
      if Relevant(s, c, id) {
        CheckTells(before, c, id);
        RelevantHasPeer(s, c, id);
      }
      if a.InsertPeer? && a.source == id {
        InsertionSets(s, a);
      } else {
        PeerStays(s, a, c, id);
      }
    }
  }

  lemma InsertionSets(s: State, a: Action)
    requires a.InsertPeer?
    ensures a.source in Step(s, a).peers && Step(s, a).peers[a.source] == a.peer
  {
  }

  lemma NobodyRelevant(c: Child, id: SourceId)
    ensures !Relevant(INITIAL, c, id)
  {
  }

  lemma LedgerBySpawning(s: State, a: Action, c: Child)
    requires LedgerOk(s)
    ensures c in Step(s, a).ledger ==> c in s.ledger || (a.SpawnChild? && a.child == c && a.pid !in s.tasks)
  {
    hide Accounted;
  }

  lemma {:induction false} SpawnedChildren(actions: seq<Action>, c: Child)
    requires c in Run(INITIAL, actions).ledger
    ensures SpawnedFor(actions, c).Some?
  {
    hide Step, LedgerOk, LockOk, PeersOk;
    if actions != [] {
      var before := actions[..|actions| - 1];
      RunKeepsInv(before);
      if c in Run(INITIAL, before).ledger {
        SpawnedChildren(before, c);
      } else {
        LedgerBySpawning(Run(INITIAL, before), actions[|actions| - 1], c);
      }
    }
  }

  /** At every moment, a registered child belongs to the peer now registered if and only if its starter's check found
    * its own peer and none has been inserted for the source since, or the one inserted last since is its own. */
  lemma BelongsExactly(actions: seq<Action>, id: SourceId)
    requires id in Run(INITIAL, actions).normalizers
    ensures var s := Run(INITIAL, actions);
            var c := s.normalizers[id];
            && SpawnedFor(actions, c).Some? && id in s.peers && CheckOf(actions, c, id).Checked?
            && (s.peers[id] == SpawnedFor(actions, c).value <==>
                  match CheckOf(actions, c, id)
                  case Checked(found, None) => found == SpawnedFor(actions, c).value
                  case Checked(found, Some(later)) => later == SpawnedFor(actions, c).value
                  case NotYet => false)
  {
    hide LockOk, PeersOk, Run, SpawnedFor, CheckOf;
    var c := Run(INITIAL, actions).normalizers[id];
    RunKeepsInv(actions);
    CheckTells(actions, c, id);
    SpawnedChildren(actions, c);
  }

  // ---------- a foreign child ----------

  lemma {:induction false} RunSplit(s: State, xs: seq<Action>, ys: seq<Action>)
    ensures Run(s, xs + ys) == Run(Run(s, xs), ys)
  {
    hide Step;
    if ys == [] {
      assert xs + ys == xs;
    } else {
      var n := |ys| - 1;
      RunSplit(s, xs, ys[..n]);
      assert (xs + ys)[..|xs| + n] == xs + ys[..n];
    }
  }

  lemma RunThree(s: State, a: Action, b: Action, c: Action)
    ensures Run(s, [a, b, c]) == Step(Step(Step(s, a), b), c)
  {
    hide Step;
    assert [a, b, c][..2] == [a, b] && [a, b][..1] == [a] && [a][..0] == [];
    assert Run(s, []) == s;
    assert Run(s, [a]) == Step(s, a);
    assert Run(s, [a, b]) == Step(Step(s, a), b);
  }

  lemma RunSix(s: State, a: Action, b: Action, c: Action, d: Action, e: Action, f: Action)
    ensures Run(s, [a, b, c, d, e, f]) == Step(Step(Step(Step(Step(Step(s, a), b), c), d), e), f)
  {
    hide Step, Run;
    RunThree(s, a, b, c);
    RunThree(Step(Step(Step(s, a), b), c), d, e, f);
    RunSplit(s, [a, b, c], [d, e, f]);
    assert [a, b, c, d, e, f] == [a, b, c] + [d, e, f];
  }

  /** Peer 10 of source 1 has begun to start child 100 when it is torn down and peer 11 comes in its place. */
  const TORN_DOWN: seq<Action> := [InsertPeer(1, 10), SpawnChild(0, 1, 100, 10), BeginStop(5, 1, true)]
                                  + [Advance(5), Advance(5), Advance(5), Advance(5), Advance(5), InsertPeer(1, 11)]

  const STARTER_GOES_ON: seq<Action> := [Advance(0), Advance(0), Advance(0), Advance(0), Advance(0), Advance(0)]

  function TornDown(lock: Option<Pid>, peers: map<SourceId, Peer>, stop: StopPc): State {
    State(lock, map[], peers, map[0 := Start(1, 100, 10, Spawned), 5 := Stop(1, true, stop)], map[100 := Local(0)])
  }

  lemma TeardownSteps()
    ensures Step(TornDown(None, map[1 := 10], Waiting), Advance(5)) == TornDown(Some(5), map[1 := 10], Holding)
    ensures Step(TornDown(Some(5), map[1 := 10], Holding), Advance(5)) == TornDown(Some(5), map[1 := 10], Killing(None))
    ensures Step(TornDown(Some(5), map[1 := 10], Killing(None)), Advance(5))
         == TornDown(Some(5), map[1 := 10], ChildGone)
    ensures Step(TornDown(Some(5), map[1 := 10], ChildGone), Advance(5)) == TornDown(Some(5), map[], PeerGone)
    ensures Step(TornDown(Some(5), map[], PeerGone), Advance(5)) == TornDown(None, map[], Stopped)
    ensures Step(TornDown(None, map[], Stopped), InsertPeer(1, 11)) == TornDown(None, map[1 := 11], Stopped)
  {
  }

  lemma TeardownRuns()
    ensures Run(INITIAL, TORN_DOWN) == TornDown(None, map[1 := 11], Stopped)
  {
    hide Run;
    RunThree(INITIAL, InsertPeer(1, 10), SpawnChild(0, 1, 100, 10), BeginStop(5, 1, true));
    var s := TornDown(None, map[1 := 10], Waiting);
    assert Step(Step(Step(INITIAL, InsertPeer(1, 10)), SpawnChild(0, 1, 100, 10)), BeginStop(5, 1, true)) == s;
    RunSix(s, Advance(5), Advance(5), Advance(5), Advance(5), Advance(5), InsertPeer(1, 11));
    RunSplit(INITIAL, [InsertPeer(1, 10), SpawnChild(0, 1, 100, 10), BeginStop(5, 1, true)],
             [Advance(5), Advance(5), Advance(5), Advance(5), Advance(5), InsertPeer(1, 11)]);
    TeardownSteps();
  }

  lemma {:induction false} SpawnedForBefore(xs: seq<Action>, ys: seq<Action>, c: Child)
    requires forall i | 0 <= i < |ys| :: !ys[i].SpawnChild?
    ensures SpawnedFor(xs + ys, c) == SpawnedFor(xs, c)
  {
    hide Run;
    if ys == [] {
      assert xs + ys == xs;
    } else {
      var n := |ys| - 1;
      SpawnedForBefore(xs, ys[..n], c);
      assert (xs + ys)[..|xs| + n] == xs + ys[..n];
    }
  }

  lemma SpawnedForTen()
    ensures SpawnedFor([InsertPeer(1, 10), SpawnChild(0, 1, 100, 10)], 100) == Some(10)
  {
    var xs := [InsertPeer(1, 10), SpawnChild(0, 1, 100, 10)];
    assert xs[..1] == [InsertPeer(1, 10)] && [InsertPeer(1, 10)][..0] == [];
    assert Run(INITIAL, []) == INITIAL;
    assert Run(INITIAL, xs[..1]) == Step(INITIAL, InsertPeer(1, 10));
  }

  /** A run on which a registered child is not the registered peer's: the old starter's child, for the new peer. */
  lemma ForeignChild()
    ensures var actions := TORN_DOWN + STARTER_GOES_ON;
            var s := Run(INITIAL, actions);
            && Entry(s, 1) == Some(100) && s.lock.None? && s.peers == map[1 := 11]
            && SpawnedFor(actions, 100) == Some(10)
  {
    hide Step, Run, SpawnedFor;
    var s := TornDown(None, map[1 := 11], Stopped);
    var a := Advance(0);
    TeardownRuns();
    RunSplit(INITIAL, TORN_DOWN, STARTER_GOES_ON);
    RunSix(s, a, a, a, a, a, a);
    StarterReplaces(s, 0);
    var xs := [InsertPeer(1, 10), SpawnChild(0, 1, 100, 10)];
    SpawnedForTen();
    SpawnedForBefore(xs, (TORN_DOWN + STARTER_GOES_ON)[2..], 100);
    assert xs + (TORN_DOWN + STARTER_GOES_ON)[2..] == TORN_DOWN + STARTER_GOES_ON;
  }

  // ---------- what each teardown and each refused start does ----------

  /** In every state, the step by which a teardown removes the peer leaves the source without one, and no other source;
    * the step by which it takes the child out leaves no entry, and the child it took is dead by the next one. */
  lemma TeardownSteppedThrough(s: State, pid: Pid, other: SourceId)
    requires pid in s.tasks && s.tasks[pid].Stop? && other != s.tasks[pid].source
    ensures var t, next := s.tasks[pid], Step(s, Advance(pid));
            && (t.stop.ChildGone? ==>
                  && (t.dropsPeer ==> t.source !in next.peers) && (!t.dropsPeer ==> next.peers == s.peers)
                  && PeerOf(next, other) == PeerOf(s, other))
            && (t.stop.Holding? ==>
                  Entry(next, t.source) == None && Entry(next, other) == Entry(s, other)
                  && next.tasks[pid].stop == Killing(Entry(s, t.source)))
            && (t.stop.Killing? && t.stop.child.Some? ==>
                  t.stop.child.value in next.ledger && next.ledger[t.stop.child.value] == Dead)
            && (t.stop.Waiting? && s.lock == None ==> next.lock == Some(pid) && next.tasks[pid].stop == Holding)
            && (t.stop.PeerGone? ==> next.lock == None && next.tasks[pid].stop == Stopped)
  {
  }

  function PeerOf(s: State, id: SourceId): Option<Peer> { if id in s.peers then Some(s.peers[id]) else None }

  /** A start that is refused gives the lock back and then kills its child; one that is not takes out, kills and
    * registers in this order, and gives the lock back last. */
  lemma StartSteps(s: State, pid: Pid)
    requires pid in s.tasks && s.tasks[pid].Start?
    ensures var t, next := s.tasks[pid], Step(s, Advance(pid));
            var now := next.tasks[pid].start;
            && (t.start.Spawned? && s.lock == None ==> next.lock == Some(pid) && now == Locked)
            && (t.start.Spawned? && s.lock != None ==> next == s)
            && (t.start.Locked? ==> now == if t.source in s.peers then PeerSeen else Rejected)
            && (t.start.Rejected? ==> next.lock == None && now == Dropping)
            && (t.start.Dropping? ==> t.child in next.ledger && next.ledger[t.child] == Dead && now == Dropped)
            && (t.start.PeerSeen? ==> Entry(next, t.source) == None && now == Replacing(Entry(s, t.source)))
            && (t.start.Replacing? && t.start.previous.Some? ==>
                  t.start.previous.value in next.ledger && next.ledger[t.start.previous.value] == Dead)
            && (t.start.OldKilled? ==> Entry(next, t.source) == Some(t.child) && now == Inserted)
            && (t.start.Inserted? ==> next.lock == None && now == Started)
            && next.peers == s.peers
  {
  }
}
