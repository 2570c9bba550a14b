/**
 The node as the program has it: an object that owns its log file and its store and whose handlers
 change its fields in place. Every handler ends in the state, and sends the messages, that the
 function of the same name gives; between handlers the saved term, vote and snapshot agree with the
 fields, the store is what the applied entries make of an empty one, and the log file goes on reading
 back as the log, a follower's always and a leader's as long as it is free of damage.
 */
module RaftObject {
  import opened Wrappers
  import opened Commands
  import opened LogFile
  import opened RaftNode
  import opened Replica
  import opened WalObject
  import Mvcc
  import MvccObject
  import MS = MvccSnapshot

  /** Messages to send, and the peers the saved snapshot goes to. */
  datatype Sends = Sends(msgs: set<Msg>, snapTo: set<Id>)

  const Nothing: Sends := Sends({}, {})

  function Both(a: Sends, b: Sends): Sends {
    Sends(a.msgs + b.msgs, a.snapTo + b.snapTo)
  }

  /** The sends as messages, given the sender's term and what its saved snapshot stands for. */
  function Wire(nd: Node, s: Sends): set<Msg> {
    s.msgs + match nd.snapshot
             case None => {}
             case Some(snap) => set p | p in s.snapTo :: SnapReq(nd.id, p, nd.currentTerm, snap)
  }

  class Raft {
    const cfg: Config
    const id: Id
    const wal: Wal
    const store: MvccObject.Store
    const coding: MS.Coding

    var currentTerm: nat
    var votedFor: Option<Id>
    var log: seq<Entry>
    var snapshotIndex: nat
    var snapshotTerm: nat
    var commitIndex: nat
    var lastApplied: nat
    var role: Role
    var leaderId: Option<Id>
    var granted: set<Id>
    var nextIndex: map<Id, nat>
    var matchIndex: map<Id, nat>
    var pending: map<nat, Waiter>
    var settled: multiset<Settle>
    /** What was handed to the store, and what the saved snapshot covers. */
    ghost var app: seq<Entry>
    ghost var covered: Option<Snapshot>

    ghost function State(): Node
      reads this
    {
      Node(id, currentTerm, votedFor, log, covered, snapshotIndex, snapshotTerm, commitIndex, lastApplied,
           role, leaderId, granted, nextIndex, matchIndex, pending, settled, app)
    }

    ghost predicate Saved(term: nat, vote: Option<Id>)
      reads wal`state
    {
      if wal.state.Some? then wal.state.value == SavedState(term, vote) else term == 0 && vote == None
    }

    /** The saved snapshot restores to the store of the entries it covers. */
    ghost predicate Covers(saved: Option<SavedSnapshot>, covered: Option<Snapshot>) {
      match saved
      case None => covered == None
      case Some(s) =>
        covered.Some? && covered.value.index == s.index && covered.value.term == s.term
        && MS.Restore(coding, s.state) == StoreOf(covered.value.state)
    }

    ghost predicate Valid()
      reads `currentTerm, `votedFor, `covered, `app, wal, store
    {
      && MS.IsCoding(coding) && wal.Valid()
      && Saved(currentTerm, votedFor) && Covers(wal.snapshot, covered)
      && store.State() == StoreOf(app)
    }

    /** The log file reads back as the log, whatever damage lies behind what is read. */
    ghost predicate Logged()
      reads `log, `snapshotIndex, wal`text
    {
      LogFrom(wal.Contents(), snapshotIndex + 1) == LogFrom(log, snapshotIndex + 1)
    }

    /** Moreover the file has no damage, so that the next append will be read back too. */
    ghost predicate Durable()
      reads `log, `snapshotIndex, wal`text
    {
      wal.Tidy() && Logged()
    }

    // ---- lifecycle ---------------------------------------------------------

    constructor (cfg: Config, id: Id, wal: Wal, store: MvccObject.Store, coding: MS.Coding)
      ensures State() == Fresh(id)
      ensures this.wal == wal && this.store == store && this.cfg == cfg && this.coding == coding && this.id == id
    {
      this.cfg, this.id, this.wal, this.store, this.coding := cfg, id, wal, store, coding;
      currentTerm, votedFor, log := 0, None, [];
      snapshotIndex, snapshotTerm, commitIndex, lastApplied := 0, 0, 0, 0;
      role, leaderId, granted := Follower, None, {};
      nextIndex, matchIndex, pending, settled := map[], map[], map[], multiset{};
      app, covered := [], None;
    }

    /** The files a node can leave: the log file may be torn, and may still hold what the snapshot covers. */
    ghost predicate LeftBehind(was: Node)
      reads wal
    {
      && wal.Valid() && Saved(was.currentTerm, was.votedFor) && Covers(wal.snapshot, was.snapshot)
      && var next := match was.snapshot case None => 1 case Some(s) => s.index + 1;
         LogFrom(wal.Contents(), next) == LogFrom(was.log, next)
    }

    /** A node leaves such files at any moment, also between saving a snapshot and cutting the log. */
    lemma Leaves()
      requires Valid() && Logged() && snapshotIndex <= (match covered case None => 0 case Some(s) => s.index)
      ensures LeftBehind(State())
    {
      hide StoreOf, MS.Restore, LogFile.Read, LogFrom;
      var next := match covered case None => 1 case Some(s) => s.index + 1;
      LogFromTwice(wal.Contents(), snapshotIndex + 1, next);
      LogFromTwice(log, snapshotIndex + 1, next);
    }

    /** A new process on the files an earlier one left: what it loads is what the restart of that node is. */
    method Start(ghost was: Node)
      requires State() == Fresh(was.id) && store.State() == Mvcc.Empty && MS.IsCoding(coding) && LeftBehind(was)
      modifies this, store
      ensures Valid() && Logged() && State() == Restart(was)
    {
      NothingApplied();
      hide StoreOf, MS.Restore, LogFile.Read, Mvcc.Apply, Wal.Valid, LogFrom;
      LoadVote(was.currentTerm, was.votedFor);
      if wal.snapshot.Some? { LoadSnapshot(wal.snapshot.value, was.snapshot.value); }
      LoadLog(was.log);
    }

    method LoadVote(ghost term: nat, ghost vote: Option<Id>)
      requires Saved(term, vote) && currentTerm == 0 && votedFor == None
      modifies `currentTerm, `votedFor
      ensures currentTerm == term && votedFor == vote
    {
      var state := wal.LoadState();
      currentTerm, votedFor := state.currentTerm, state.votedFor;
    }

    method LoadLog(ghost was: seq<Entry>)
      requires wal.Valid() && LogFrom(wal.Contents(), snapshotIndex + 1) == LogFrom(was, snapshotIndex + 1)
      modifies `log
      ensures log == LogFrom(was, snapshotIndex + 1) && Logged()
    {
      hide LogFile.Read, Wal.Valid, LogFrom;
      var entries := wal.ReadLog();
      log := LogFrom(entries, snapshotIndex + 1);
      LogFromTwice(entries, snapshotIndex + 1, snapshotIndex + 1);
    }

    method RestoreStore(state: MS.Snapshot, ghost entries: seq<Entry>)
      requires MS.Restore(coding, state) == StoreOf(entries)
      modifies `app, store
      ensures app == entries && store.State() == StoreOf(app)
    {
      store.Restore(coding, state);
      app := entries;
    }

    method LoadSnapshot(saved: SavedSnapshot, ghost was: Snapshot)
      requires Covers(Some(saved), Some(was))
      modifies `snapshotIndex, `snapshotTerm, `commitIndex, `lastApplied, `covered, `app, store
      ensures store.State() == StoreOf(app)
      ensures State() == old(State()).(snapshot := Some(was), snapshotIndex := was.index, snapshotTerm := was.term,
                                       commitIndex := was.index, lastApplied := was.index, app := was.state)
    {
      hide StoreOf, MS.Restore;
      RestoreStore(saved.state, was.state);
      snapshotIndex, snapshotTerm, commitIndex, lastApplied := saved.index, saved.term, saved.index, saved.index;
      covered := Some(was);
    }

    // ---- log helpers -------------------------------------------------------

    function LastIndexNow(): nat
      reads this
      ensures LastIndexNow() == LastIndex(State())
    {
      if log != [] then log[|log| - 1].index else snapshotIndex
    }

    function LastTermNow(): nat
      reads this
      ensures LastTermNow() == LastTerm(State())
    {
      if log != [] then log[|log| - 1].term else snapshotTerm
    }

    /** The term of the entry at an index, the snapshot standing in for the last one it covers. */
    function TermNow(index: nat): Option<nat>
      reads this
      ensures TermNow(index) == TermAt(State(), index)
    {
      if index == snapshotIndex then Some(snapshotTerm)
      else match Find(log, index)
        case None => None
        case Some(e) => Some(e.term)
    }

    /** A new term or vote is on disk before anything depends on it. */
    method PersistState(term: nat, vote: Option<Id>)
      requires Valid()
      modifies `currentTerm, `votedFor, wal`state
      ensures Valid() && currentTerm == term && votedFor == vote
    {
      hide StoreOf, MS.Restore, LogFile.Read, Wal.Valid;
      currentTerm, votedFor := term, vote;
      wal.SaveState(SavedState(currentTerm, votedFor));
    }

    // ---- apply -------------------------------------------------------------

    /** Writes the store's state beside the log, before the log is cut. */
    method SaveSnapshot(index: nat, term: nat)
      requires Valid()
      modifies wal`snapshot, this`covered
      ensures Valid() && covered == Some(Snapshot(index, term, app))
    {
      hide Wal.Valid;
      var state := store.TakeSnapshot(coding);
      MS.RestoreSnapshot(coding, store.State(), state);
      wal.SaveSnapshot(SavedSnapshot(index, term, state));
      covered := Some(Snapshot(index, term, app));
    }

    /** Cuts the log, in memory and on disk, to the entries after the snapshot just saved. */
    method CutLog(index: nat, term: nat)
      requires Valid()
      modifies `log, `snapshotIndex, `snapshotTerm, wal`text
      ensures Valid() && snapshotIndex == index && snapshotTerm == term && log == LogFrom(old(log), index + 1)
      ensures Durable() && wal.Contents() == log
    {
      snapshotIndex, snapshotTerm := index, term;
      log := LogFrom(log, snapshotIndex + 1);
      wal.Rewrite(log);
    }

    method TakeSnapshot()
      requires Valid()
      modifies `covered, `snapshotIndex, `snapshotTerm, `log, wal
      ensures Valid() && State() == RaftNode.TakeSnapshot(old(State()))
      ensures (old(Logged()) ==> Logged()) && (old(Durable()) ==> Durable())
    {
      hide StoreOf, MS.Restore, LogFile.Read, Mvcc.Apply, Wal.Valid, Durable;
      var term := TermNow(lastApplied);
      if term.Some? {
        SaveSnapshot(lastApplied, term.value);
        CutLog(lastApplied, term.value);
      }
    }

    method MaybeSnapshot()
      requires Valid()
      modifies this, wal
      ensures Valid() && State() == RaftNode.MaybeSnapshot(cfg, old(State()))
      ensures (old(Logged()) ==> Logged()) && (old(Durable()) ==> Durable())
    {
      hide Logged, Durable;
      match cfg.snapshotEvery {
        case None =>
        case Some(every) => if lastApplied - snapshotIndex >= every { TakeSnapshot(); }
      }
    }

    method Feed(e: Entry)
      requires store.State() == StoreOf(app)
      modifies store, this`app
      ensures app == old(app) + [e] && store.State() == StoreOf(app)
    {
      StoreOfPush(app, e);
      var result := store.Apply(e.cmd, e.index);
      app := app + [e];
    }

    /** Resolves or rejects the waiter of an applied entry, by index and term together. */
    method Settle(e: Entry)
      modifies `pending, `settled
      ensures State() == RaftNode.Deliver(old(State()), e).(app := old(app))
    {
      var waiter := if e.index in pending then Some(pending[e.index]) else None;
      pending := pending - {e.index};
      match waiter {
        case None => assert pending == old(pending);
        case Some(w) =>
          settled := settled + multiset{if w.term == e.term then Resolved(e.index, w, e) else Rejected(e.index, w)};
      }
    }

    /** Hands one entry to the store and settles the waiter of its index. */
    method Deliver(e: Entry)
      requires Valid()
      modifies `app, `pending, `settled, store
      ensures Valid() && State() == RaftNode.Deliver(old(State()), e)
    {
      hide Wal.Valid;
      Feed(e);
      Settle(e);
    }

    method ApplyCommitted()
      requires Valid()
      modifies this, wal, store
      ensures Valid() && State() == RaftNode.ApplyCommitted(cfg, old(State()))
      ensures (old(Logged()) ==> Logged()) && (old(Durable()) ==> Durable())
    {
      hide StoreOf, MS.Restore, LogFile.Read, Valid, RaftNode.MaybeSnapshot, RaftNode.Deliver, Logged, Durable, Find;
      while lastApplied < commitIndex
        invariant Valid()
        invariant RaftNode.ApplyCommitted(cfg, State()) == RaftNode.ApplyCommitted(cfg, old(State()))
        invariant (old(Logged()) ==> Logged()) && (old(Durable()) ==> Durable())
        decreases commitIndex - lastApplied
      {
        ghost var before := State();
        lastApplied := lastApplied + 1;
        if lastApplied != snapshotIndex {
          var e := Find(log, lastApplied);
          if e.Some? {
            Deliver(e.value);
            MaybeSnapshot();
          }
        }
        assert State() == ApplyOne(cfg, before);
        AppliesOne(cfg, before);
      }
    }

    // ---- elections ---------------------------------------------------------

    /** Tells every waiting caller that the outcome is no longer this node's to report. */
    method RejectAll()
      modifies `pending, `settled
      ensures pending == map[] && settled == old(settled) + Rejections(old(pending))
    {
      while pending != map[]
        invariant settled + Rejections(pending) == old(settled) + Rejections(old(pending))
        decreases |pending|
      {
        var item :| item in pending.Items;
        RejectionsLess(pending, item.0);
        settled := settled + multiset{Rejected(item.0, item.1)};
        pending := pending - {item.0};
      }
      assert Rejections(pending) == multiset{};
    }

    method BecomeFollower(term: nat)
      requires Valid()
      modifies `role, `pending, `settled, `currentTerm, `votedFor, wal`state
      ensures Valid() && State() == RaftNode.BecomeFollower(old(State()), term)
    {
      hide StoreOf, MS.Restore, LogFile.Read, Valid, Rejections, Wal.Valid;
      StepDown();
      if term > currentTerm { PersistState(term, None); }
    }

    /** A node that stops leading or standing answers everyone who waits on it. */
    method StepDown()
      modifies `role, `pending, `settled
      ensures State() == RaftNode.BecomeFollower(old(State()), 0)
    {
      hide Rejections;
      var changed := role != Follower;
      role := Follower;
      if changed { RejectAll(); }
    }

    /** Up for election: the term and the vote are on disk before anyone is asked. */
    method Stand()
      requires Valid()
      modifies `role, `currentTerm, `votedFor, `leaderId, `granted, wal`state
      ensures Valid() && State() == RaftNode.Stand(old(State()))
    {
      hide StoreOf, MS.Restore, LogFile.Read, Valid, Wal.Valid;
      role, leaderId, granted := Candidate, None, {id};
      PersistState(currentTerm + 1, Some(id));
    }

    method StartElection() returns (out: Sends)
      requires Valid()
      modifies this, wal, store
      ensures Valid() && State() == RaftNode.StartElection(cfg, old(State())).node
      ensures Wire(State(), out) == RaftNode.StartElection(cfg, old(State())).sent
      ensures old(Durable()) ==> Durable()
    {
      hide StoreOf, MS.Restore, LogFile.Read, RaftNode.BecomeLeader, Logged, Durable;
      Stand();
      if 1 >= Quorum(cfg) {
        out := BecomeLeader();
      } else {
        out := Sends(set p | p in Peers(cfg, id) :: VoteReq(id, p, currentTerm, LastIndexNow(), LastTermNow()), {});
      }
    }

    method HandleVote(m: Msg) returns (reply: Msg)
      requires Valid() && m.VoteReq?
      modifies `role, `pending, `settled, `currentTerm, `votedFor, wal`state
      ensures Valid() && Out(State(), {reply}) == RaftNode.HandleVote(old(State()), m)
    {
      hide StoreOf, MS.Restore, LogFile.Read, Valid, Wal.Valid;
      if m.term > currentTerm { BecomeFollower(m.term); }
      var upToDate := m.lastLogTerm > LastTermNow()
          || (m.lastLogTerm == LastTermNow() && m.lastLogIndex >= LastIndexNow());
      var grant := m.term >= currentTerm && (votedFor == None || votedFor == Some(m.src)) && upToDate;
      if grant { PersistState(currentTerm, Some(m.src)); }
      reply := VoteReply(id, m.src, m.term, currentTerm, grant);
    }

    method OnVoteReply(m: Msg) returns (out: Sends)
      requires Valid() && m.VoteReply?
      modifies this, wal, store
      ensures Valid() && State() == RaftNode.OnVoteReply(cfg, old(State()), m).node
      ensures Wire(State(), out) == RaftNode.OnVoteReply(cfg, old(State()), m).sent
      ensures old(Durable()) ==> Durable()
    {
      hide StoreOf, MS.Restore, LogFile.Read, RaftNode.BecomeLeader, Logged, Durable;
      out := Nothing;
      if role != Candidate || currentTerm != m.reqTerm { return; }
      if m.term > currentTerm {
        BecomeFollower(m.term);
      } else if m.granted {
        granted := granted + {m.src};
        if |granted| >= Quorum(cfg) { out := BecomeLeader(); }
      }
    }

    /** Takes up leadership, with every peer's next index at the end of the log. */
    method Lead()
      modifies `role, `leaderId, `nextIndex, `matchIndex
      ensures State() == RaftNode.Lead(cfg, old(State()))
    {
      hide Each;
      role, leaderId := Leader, Some(id);
      nextIndex, matchIndex := Each(Peers(cfg, id), LastIndexNow() + 1), Each(Peers(cfg, id), 0);
    }

    method BecomeLeader() returns (out: Sends)
      requires Valid()
      modifies this, wal, store
      ensures Valid() && State() == RaftNode.BecomeLeader(cfg, old(State())).node
      ensures Wire(State(), out) == RaftNode.BecomeLeader(cfg, old(State())).sent
      ensures old(Durable()) ==> Durable()
    {
      hide StoreOf, MS.Restore, LogFile.Read, RaftNode.AppendLocal, RaftNode.Replicate, Logged, Durable;
      if role == Leader { return Nothing; }
      Lead();
      ghost var led := State();
      var first := AppendLocal(Noop);
      ghost var appended := State();
      var second := Replicate();
      out := Both(first, second);
      SameWire(appended, State(), cfg, first, second);
    }

    // ---- replication -------------------------------------------------------

    /** The entry is in the log file before anyone is told of it. */
    method Append(cmd: Command)
      requires Valid()
      modifies `log, `pending, wal`text
      ensures Valid() && State() == RaftNode.Append(old(State()), cmd)
      ensures wal.Tidy() == old(wal.Tidy())
      ensures old(Logged()) && LastIndex(old(State())) >= snapshotIndex ==> (Logged() <==> old(wal.Tidy()))
      ensures old(Durable()) ==> Durable()
    {
      hide StoreOf, MS.Restore, LogFile.Read, Wal.Valid;
      var e := Entry(currentTerm, LastIndexNow() + 1, cmd);
      ghost var was, before := log, wal.Contents();
      log := log + [e];
      wal.Append([e]);
      pending := pending[e.index := Waiter(e.term, cmd)];
      AppendLogs(was, before, wal.Contents(), e, snapshotIndex + 1);
    }

    method AppendLocal(cmd: Command) returns (out: Sends)
      requires Valid()
      modifies this, wal, store
      ensures Valid() && State() == RaftNode.AppendLocal(cfg, old(State()), cmd).node
      ensures Wire(State(), out) == RaftNode.AppendLocal(cfg, old(State()), cmd).sent
      ensures old(Durable()) ==> Durable()
    {
      hide StoreOf, MS.Restore, LogFile.Read, RaftNode.ApplyCommitted, RaftNode.Replicate, Logged, Durable;
      var index := LastIndexNow() + 1;
      Append(cmd);
      if Quorum(cfg) == 1 {
        commitIndex := index;
        ApplyCommitted();
        out := Nothing;
      } else {
        out := Replicate();
      }
    }

    method Propose(cmd: Command) returns (out: Sends)
      requires Valid()
      modifies this, wal, store
      ensures Valid() && State() == RaftNode.Propose(cfg, old(State()), cmd).node
      ensures Wire(State(), out) == RaftNode.Propose(cfg, old(State()), cmd).sent
      ensures old(Durable()) ==> Durable()
    {
      hide StoreOf, MS.Restore, LogFile.Read, RaftNode.AppendLocal, Logged, Durable;
      if role != Leader { return Nothing; }
      out := AppendLocal(cmd);
    }

    /** One message for one peer: the suffix it needs, or word that it needs the snapshot. */
    method SuffixFor(p: Id) returns (m: Option<Msg>)
      ensures m == if NeedsSnapshot(State(), p) then None else Some(AppendFor(State(), p))
    {
      var next := if p in nextIndex then nextIndex[p] else LastIndexNow() + 1;
      var prev := next - 1;
      if prev < snapshotIndex || (prev != 0 && TermNow(prev) == None) { return None; }
      var prevTerm := if prev == 0 then 0 else TermNow(prev).value;
      m := Some(AppendReq(id, p, currentTerm, prev, prevTerm, LogFrom(log, next), commitIndex));
    }

    method Replicate() returns (out: Sends)
      requires Valid()
      modifies `nextIndex
      ensures Valid() && State() == RaftNode.Replicate(cfg, old(State())).node
      ensures Wire(State(), out) == RaftNode.Replicate(cfg, old(State())).sent
    {
      hide StoreOf, MS.Restore, LogFile.Read;
      if role != Leader { return Nothing; }
      ghost var was := State();
      var msgs, behind := SendSuffixes();
      ReplicateIs(cfg, was);
      out := Sends(msgs, if wal.snapshot.Some? then behind else {});
    }

    method SendSuffix(p: Id, msgs: set<Msg>, behind: set<Id>, ghost was: Node, ghost done: set<Id>)
      returns (msgs': set<Msg>, behind': set<Id>)
      requires State() == was.(nextIndex := nextIndex) && AsBefore(was.nextIndex, nextIndex, {p})
      requires Gone(was, wal.snapshot.Some?, nextIndex, done, msgs, behind)
      modifies `nextIndex
      ensures nextIndex == old(nextIndex) || nextIndex == old(nextIndex)[p := 1]
      ensures Gone(was, wal.snapshot.Some?, nextIndex, done + {p}, msgs', behind')
    {
      hide NeedsSnapshot, AppendFor, Appends, Behind, Reset, Peers, StoreOf, Wal.Valid;
      OnePeer(was, State(), done, p);
      ResetOne(was.nextIndex, behind, p);
      msgs', behind' := msgs, behind;
      var m := SuffixFor(p);
      match m {
        case Some(suffix) => msgs' := msgs + {suffix};
        case None =>
          behind' := behind + {p};
          if wal.snapshot == None { nextIndex := nextIndex[p := 1]; }
      }
    }

    method SendSuffixes() returns (msgs: set<Msg>, behind: set<Id>)
      requires wal.snapshot.Some? == covered.Some?
      modifies `nextIndex
      ensures msgs == Appends(old(State()), Peers(cfg, id)) && behind == Behind(old(State()), Peers(cfg, id))
      ensures nextIndex == if wal.snapshot.Some? then old(nextIndex) else Reset(old(nextIndex), behind)
    {
      hide NeedsSnapshot, AppendFor, Appends, Behind, Reset, Peers, StoreOf, Wal.Valid, AsBefore, Gone;
      ghost var was := State();
      ghost var done: set<Id> := {};
      msgs, behind := {}, {};
      var todo := Peers(cfg, id);
      NoPeers(was, wal.snapshot.Some?, todo);
      while todo != {}
        invariant todo !! done && todo + done == Peers(cfg, id) && State() == was.(nextIndex := nextIndex)
        invariant AsBefore(was.nextIndex, nextIndex, todo)
        invariant Gone(was, wal.snapshot.Some?, nextIndex, done, msgs, behind)
        decreases |todo|
      {
        var p :| p in todo;
        ghost var next := nextIndex;
        OneBefore(was.nextIndex, next, todo, p);
        msgs, behind := SendSuffix(p, msgs, behind, was, done);
        StillBefore(was.nextIndex, next, nextIndex, todo, p);
        todo, done := todo - {p}, done + {p};
      }
      AllGone(was, wal.snapshot.Some?, nextIndex, done, msgs, behind);
      assert done == Peers(cfg, id);
    }

    method AdvanceCommit()
      requires Valid()
      modifies this, wal, store
      ensures Valid() && State() == RaftNode.AdvanceCommit(cfg, old(State()))
      ensures (old(Logged()) ==> Logged()) && (old(Durable()) ==> Durable())
    {
      hide StoreOf, MS.Restore, LogFile.Read, RaftNode.ApplyCommitted, Logged, Durable;
      var n := LastIndexNow();
      while n > commitIndex
        invariant State() == old(State()) && Valid() && n >= 0
        invariant Committable(cfg, State(), n) == Committable(cfg, State(), LastIndex(State()))
      {
        var holders := set p | p in matchIndex && matchIndex[p] >= n;
        assert holders == Holders(State(), n);
        var replicas := 1 + |holders|;
        if TermNow(n) == Some(currentTerm) && replicas >= Quorum(cfg) {
          commitIndex := n;
          ApplyCommitted();
          return;
        }
        n := n - 1;
      }
    }

    method OnAppendReply(m: Msg)
      requires Valid() && m.AppendReply?
      modifies this, wal, store
      ensures Valid() && State() == RaftNode.OnAppendReply(cfg, old(State()), m)
      ensures (old(Logged()) ==> Logged()) && (old(Durable()) ==> Durable())
    {
      hide StoreOf, MS.Restore, LogFile.Read, Valid, RaftNode.AdvanceCommit, Logged, Durable;
      if role != Leader { return; }
      if m.term > currentTerm {
        BecomeFollower(m.term);
      } else if m.success {
        var reached := m.prevIndex + m.count;
        var known := if m.src in matchIndex then matchIndex[m.src] else 0;
        matchIndex := matchIndex[m.src := Max(known, reached)];
        nextIndex := nextIndex[m.src := reached + 1];
        AdvanceCommit();
      } else {
        var next := match m.conflictIndex case None => m.prevIndex case Some(c) => c;
        nextIndex := nextIndex[m.src := Max(1, next)];
      }
    }

    method OnSnapReply(m: Msg)
      requires Valid() && m.SnapReply?
      modifies this, wal
      ensures Valid() && State() == RaftNode.OnSnapReply(old(State()), m)
      ensures (old(Logged()) ==> Logged()) && (old(Durable()) ==> Durable())
    {
      hide StoreOf, MS.Restore, LogFile.Read, Logged, Durable, Wal.Valid, Valid;
      if role != Leader { return; }
      if m.term > currentTerm {
        BecomeFollower(m.term);
      } else {
        matchIndex, nextIndex := matchIndex[m.src := m.index], nextIndex[m.src := m.index + 1];
      }
    }

    /** The first received entry this node lacks or holds in another term. */
    method FirstDivergence(entries: seq<Entry>) returns (at: Option<nat>)
      ensures at == Diverges(State(), entries)
    {
      var i := 0;
      assert entries[0..] == entries;
      while i < |entries|
        invariant i <= |entries| && Diverges(State(), entries[i..]) == Diverges(State(), entries)
      {
        assert entries[i..][0] == entries[i] && entries[i..][1..] == entries[i + 1..];
        if TermNow(entries[i].index) != Some(entries[i].term) { return Some(entries[i].index); }
        i := i + 1;
      }
      at := None;
    }

    method Merge(entries: seq<Entry>)
      requires Valid()
      modifies `log, wal`text
      ensures Valid() && State() == RaftNode.Merge(old(State()), entries)
      ensures (old(Logged()) ==> Logged()) && (old(Durable()) ==> Durable())
    {
      hide StoreOf, MS.Restore, LogFile.Read;
      var at := FirstDivergence(entries);
      match at {
        case None =>
        case Some(d) =>
          log := LogBelow(log, d) + LogFrom(entries, d);
          wal.Rewrite(log);
      }
    }

    /** Steps down for a leader of this or a newer term, and remembers it. */
    method Heed(m: Msg)
      requires Valid() && m.AppendReq?
      modifies `role, `pending, `settled, `currentTerm, `votedFor, `leaderId, wal`state
      ensures Valid() && State() == RaftNode.Heed(old(State()), m)
    {
      hide StoreOf, MS.Restore, LogFile.Read, Valid;
      if m.term > currentTerm || role != Follower { BecomeFollower(m.term); }
      leaderId := Some(m.src);
    }

    method LearnCommit(leaderCommit: nat)
      requires Valid()
      modifies this, wal, store
      ensures Valid() && State() == RaftNode.LearnCommit(cfg, old(State()), leaderCommit)
      ensures (old(Logged()) ==> Logged()) && (old(Durable()) ==> Durable())
    {
      hide StoreOf, MS.Restore, LogFile.Read, RaftNode.ApplyCommitted, Logged, Durable;
      if leaderCommit > commitIndex {
        commitIndex := Min(leaderCommit, LastIndexNow());
        ApplyCommitted();
      }
    }

    /** Where the leader should back up to when its previous entry does not match; None when it does. */
    method Conflict(m: Msg) returns (conflict: Option<nat>)
      requires m.AppendReq?
      ensures conflict == if PrevMatches(State(), m) then None else Some(ConflictIndex(State(), m.prevLogIndex))
    {
      if m.prevLogIndex == 0 || m.prevLogIndex == snapshotIndex { return None; }
      var prev := TermNow(m.prevLogIndex);
      if prev == Some(m.prevLogTerm) { return None; }
      conflict := Some(match prev
        case None => LastIndexNow() + 1
        case Some(t) => Max(1, MinIndexOfTerm(log, t, m.prevLogIndex)));
    }

    method HandleAppend(m: Msg) returns (reply: Msg)
      requires Valid() && m.AppendReq?
      modifies this, wal, store
      ensures Valid() && Out(State(), {reply}) == RaftNode.HandleAppend(cfg, old(State()), m)
      ensures (old(Logged()) ==> Logged()) && (old(Durable()) ==> Durable())
    {
      hide StoreOf, MS.Restore, LogFile.Read, RaftNode.LearnCommit, RaftNode.Merge, RaftNode.Heed, PrevMatches,
          ConflictIndex, Valid, Logged, Durable;
      if m.term < currentTerm {
        return AppendReply(id, m.src, m.term, m.prevLogIndex, |m.entries|, currentTerm, false, None);
      }
      Heed(m);
      var conflict := Conflict(m);
      if conflict.Some? {
        return AppendReply(id, m.src, m.term, m.prevLogIndex, |m.entries|, currentTerm, false, conflict);
      }
      Merge(m.entries);
      LearnCommit(m.leaderCommit);
      reply := AppendReply(id, m.src, m.term, m.prevLogIndex, |m.entries|, currentTerm, true, None);
    }

    /** Replaces log and store by a snapshot that stands for `entries`. */
    method HandleSnapshot(src: Id, term: nat, saved: SavedSnapshot, ghost entries: seq<Entry>) returns (reply: Msg)
      requires Valid() && MS.Restore(coding, saved.state) == StoreOf(entries)
      modifies this, wal, store
      ensures var m := SnapReq(src, id, term, Snapshot(saved.index, saved.term, entries));
              Valid() && Out(State(), {reply}) == RaftNode.HandleSnapshot(old(State()), m)
      ensures (old(Logged()) ==> Logged()) && (old(Durable()) ==> Durable())
    {
      hide StoreOf, MS.Restore, LogFile.Read, Logged, Durable, Wal.Valid;
      if term < currentTerm { return SnapReply(id, src, term, saved.index, currentTerm, false); }
      BecomeFollower(term);
      leaderId := Some(src);
      Install(saved, entries);
      reply := SnapReply(id, src, term, saved.index, currentTerm, true);
    }

    method SaveReceived(saved: SavedSnapshot, ghost entries: seq<Entry>)
      requires Valid() && MS.Restore(coding, saved.state) == StoreOf(entries)
      modifies `covered, wal`snapshot
      ensures Valid() && covered == Some(Snapshot(saved.index, saved.term, entries))
    {
      hide StoreOf, MS.Restore, LogFile.Read;
      wal.SaveSnapshot(saved);
      covered := Some(Snapshot(saved.index, saved.term, entries));
    }

    method Install(saved: SavedSnapshot, ghost entries: seq<Entry>)
      requires Valid() && MS.Restore(coding, saved.state) == StoreOf(entries)
      modifies this, wal, store
      ensures Valid() && State() == RaftNode.Install(old(State()), Snapshot(saved.index, saved.term, entries))
      ensures (old(Logged()) ==> Logged()) && (old(Durable()) ==> Durable())
    {
      hide StoreOf, MS.Restore, LogFile.Read, Valid, Logged, Durable, Wal.Valid;
      SaveReceived(saved, entries);
      commitIndex, lastApplied := saved.index, saved.index;
      CutLog(saved.index, saved.term);
      ReplaceStore(saved.state, entries);
    }

    method ReplaceStore(state: MS.Snapshot, ghost entries: seq<Entry>)
      requires Valid() && MS.Restore(coding, state) == StoreOf(entries)
      modifies `app, store
      ensures Valid() && app == entries
    {
      hide StoreOf, MS.Restore, LogFile.Read;
      RestoreStore(state, entries);
    }
  }

  // ---- what is on disk -----------------------------------------------------

  lemma AppendLogs(log: seq<Entry>, before: seq<Entry>, after: seq<Entry>, e: Entry, index: nat)
    ensures LogFrom(before, index) == LogFrom(log, index) && after == before + [e]
            ==> LogFrom(after, index) == LogFrom(log + [e], index)
    ensures LogFrom(before, index) == LogFrom(log, index) && after <= before && e.index >= index
            ==> LogFrom(after, index) != LogFrom(log + [e], index)
  {
    LogFromPlus(log, [e], index);
    LogFromPlus(before, [e], index);
    var just := [e];
    assert just[1..] == [];
    assert LogFrom(just, index) == if e.index >= index then just else [];
    if after <= before {
      LogFromPlus(after, before[|after|..], index);
      assert before == after + before[|after|..];
    }
  }

  // ---- what replication sends ----------------------------------------------

  function Behind(nd: Node, ps: set<Id>): set<Id> {
    set p | p in ps && NeedsSnapshot(nd, p)
  }

  function Appends(nd: Node, ps: set<Id>): set<Msg> {
    set p | p in ps && !NeedsSnapshot(nd, p) :: AppendFor(nd, p)
  }

  function Reset(nextIndex: map<Id, nat>, ps: set<Id>): map<Id, nat> {
    nextIndex + map p | p in ps :: 1
  }

  /** The next indices of the peers still to come are as they were. */
  ghost predicate AsBefore(was: map<Id, nat>, now: map<Id, nat>, todo: set<Id>) {
    && (forall p | p in todo :: p in now <==> p in was)
    && (forall p | p in todo && p in now :: now[p] == was[p])
  }

  /** What the peers already seen to were sent, and which of them need the snapshot. */
  ghost predicate Gone(was: Node, saved: bool, now: map<Id, nat>, done: set<Id>, msgs: set<Msg>, behind: set<Id>) {
    && behind == Behind(was, done) && msgs == Appends(was, done)
    && now == if saved then was.nextIndex else Reset(was.nextIndex, behind)
  }

  lemma NoPeers(nd: Node, saved: bool, todo: set<Id>)
    ensures AsBefore(nd.nextIndex, nd.nextIndex, todo) && Gone(nd, saved, nd.nextIndex, {}, {}, {})
  {
  }

  lemma OneBefore(was: map<Id, nat>, now: map<Id, nat>, todo: set<Id>, p: Id)
    requires AsBefore(was, now, todo) && p in todo
    ensures AsBefore(was, now, {p})
  {
  }

  lemma StillBefore(was: map<Id, nat>, now: map<Id, nat>, now': map<Id, nat>, todo: set<Id>, p: Id)
    requires AsBefore(was, now, todo) && (now' == now || now' == now[p := 1])
    ensures AsBefore(was, now', todo - {p})
  {
  }

  lemma AllGone(was: Node, saved: bool, now: map<Id, nat>, done: set<Id>, msgs: set<Msg>, behind: set<Id>)
    requires Gone(was, saved, now, done, msgs, behind)
    ensures behind == Behind(was, done) && msgs == Appends(was, done)
    ensures now == if saved then was.nextIndex else Reset(was.nextIndex, behind)
  {
  }

  lemma OnePeer(was: Node, nd: Node, done: set<Id>, p: Id)
    requires nd == was.(nextIndex := nd.nextIndex)
    requires (p in nd.nextIndex <==> p in was.nextIndex) && (p in nd.nextIndex ==> nd.nextIndex[p] == was.nextIndex[p])
    ensures NeedsSnapshot(nd, p) <==> NeedsSnapshot(was, p)
    ensures NeedsSnapshot(was, p) ==>
              Behind(was, done + {p}) == Behind(was, done) + {p} && Appends(was, done + {p}) == Appends(was, done)
    ensures !NeedsSnapshot(was, p) ==>
              AppendFor(nd, p) == AppendFor(was, p) && Behind(was, done + {p}) == Behind(was, done)
    ensures !NeedsSnapshot(was, p) ==> Appends(was, done + {p}) == Appends(was, done) + {AppendFor(was, p)}
  {
    assert NextFor(nd, p) == NextFor(was, p);
    OneAppend(was, done, p);
  }

  lemma OneAppend(nd: Node, done: set<Id>, p: Id)
    ensures Appends(nd, done + {p}) == Appends(nd, done) + (if NeedsSnapshot(nd, p) then {} else {AppendFor(nd, p)})
  {
    hide NeedsSnapshot, AppendFor;
  }

  lemma ResetOne(nextIndex: map<Id, nat>, ps: set<Id>, p: Id)
    ensures Reset(nextIndex, ps + {p}) == Reset(nextIndex, ps)[p := 1]
  {
  }

  lemma ReplicateIs(cfg: Config, nd: Node)
    requires nd.role == Leader
    ensures var out := RaftNode.Replicate(cfg, nd);
            && out.node == (if nd.snapshot.Some? then nd
                else nd.(nextIndex := Reset(nd.nextIndex, Behind(nd, Peers(cfg, nd.id)))))
            && out.sent == Appends(nd, Peers(cfg, nd.id))
               + (match nd.snapshot
                  case None => {}
                  case Some(s) => set p | p in Behind(nd, Peers(cfg, nd.id)) :: SnapReq(nd.id, p, nd.currentTerm, s))
  {
    hide NeedsSnapshot, AppendFor;
  }

  lemma RejectionsLess(pending: map<nat, Waiter>, i: nat)
    requires i in pending
    ensures Rejections(pending) == Rejections(pending - {i}) + multiset{Rejected(i, pending[i])}
  {
    var fewer := pending - {i};
    var all := set j | j in pending :: Rejected(j, pending[j]);
    var some := set j | j in fewer :: Rejected(j, fewer[j]);
    forall s ensures s in all <==> s in some + {Rejected(i, pending[i])} {
      if s in all {
        var j :| j in pending && s == Rejected(j, pending[j]);
        if j != i { assert j in fewer; }
      }
    }
    assert all == some + {Rejected(i, pending[i])};
    assert Rejected(i, pending[i]) !in some;
  }

  /** What is sent before a node replicates once more stays what it was. */
  lemma SameWire(nd: Node, nd': Node, cfg: Config, first: Sends, second: Sends)
    requires nd' == RaftNode.Replicate(cfg, nd).node
    ensures Wire(nd', Both(first, second)) == Wire(nd, first) + Wire(nd', second)
  {
    assert nd'.snapshot == nd.snapshot && nd'.currentTerm == nd.currentTerm && nd'.id == nd.id;
  }

  lemma AppliesOne(cfg: Config, nd: Node)
    ensures ApplyOne(cfg, nd).commitIndex == nd.commitIndex && ApplyOne(cfg, nd).lastApplied == nd.lastApplied + 1
  {
  }
}
