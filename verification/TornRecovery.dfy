/**
 The single node together with the text of its log file, in which an append may be cut short by a
 crash: when what was acknowledged survives, and that one torn append loses what is acknowledged next.
 */
module TornRecovery {
  import opened Wrappers
  import opened LogFile
  import opened LogRecovery
  import opened RaftNode
  import opened RaftView
  import opened Recovery

  datatype Disk = Disk(s: Solo, text: Text)

  /** A move of the node, or a crash after `n` characters of the append that the move makes. */
  datatype DiskMove = Full(move: Move) | Cut(move: Move, n: nat)

  predicate Writes(move: Move) {
    move.Announce? || move.Propose?
  }

  /** A restart reads the file. */
  function Restarts(c: Codec<Entry>, s: Solo, text: Text): Disk {
    Disk(Solo(Restart(s.nd.(log := Read(c, text))), Idle, s.acked), text)
  }

  /** The line of the entry a node has just appended. */
  function LastLine(c: Codec<Entry>, nd: Node): Text {
    if nd.log == [] then "" else Payload(c, [nd.log[|nd.log| - 1]])
  }

  function TextAfter(c: Codec<Entry>, text: Text, move: Move, nd: Node): Text {
    if Writes(move) then text + LastLine(c, nd)
    else if move.Rewrite? then Payload(c, nd.log)
    else text
  }

  function DiskMoved(cfg: Config, c: Codec<Entry>, d: Disk, dm: DiskMove): Option<Disk> {
    match Moved(cfg, d.s, dm.move)
    case None => None
    case Some(s) =>
      match dm
      case Full(move) =>
        Some(if move.Crash? then Restarts(c, d.s, d.text) else Disk(s, TextAfter(c, d.text, move, s.nd)))
      case Cut(move, n) =>
        if !Writes(move) then None
        else
          var line := LastLine(c, s.nd);
          Some(Restarts(c, s, d.text + if n <= |line| then line[..n] else line))
  }

  // ---- what the file says --------------------------------------------------

  ghost predicate Made(c: Codec<Entry>, text: Text) {
    exists f :: FileOk(c, f) && TextOf(c, f) == text
  }

  predicate TidyText(c: Codec<Entry>, text: Text) {
    text == Payload(c, Read(c, text))
  }

  /** Where a restart begins to read its log. */
  function Next(nd: Node): nat {
    match nd.snapshot case None => 1 case Some(s) => s.index + 1
  }

  /** A restart from the file reads what is in memory. */
  predicate Logged(c: Codec<Entry>, nd: Node, text: Text) {
    LogFrom(Read(c, text), Next(nd)) == LogFrom(nd.log, Next(nd))
  }

  ghost predicate DiskOk(c: Codec<Entry>, d: Disk, f: seq<Entry>) {
    && SoloOk(d.s, f) && TermOk(d.s) && Made(c, d.text) && Logged(c, d.s.nd, d.text)
    && (d.s.stage == Idle && d.s.nd.role == Leader ==> d.s.nd.lastApplied == d.s.nd.commitIndex == |f|)
  }

  /** One whole line more. */
  lemma AppendLogged(c: Codec<Entry>, nd: Node, e: Entry, text: Text)
    requires IsCodec(c) && Made(c, text) && TidyText(c, text) && Logged(c, nd, text)
    ensures var text' := text + Payload(c, [e]);
            Made(c, text') && Logged(c, nd.(log := nd.log + [e]), text')
  {
    hide LogFrom, Read;
    var g :| FileOk(c, g) && TextOf(c, g) == text;
    AppendText(c, g, [e]);
    AppendSurvives(c, g, [e]);
    LogFromPlus(Read(c, text), [e], Next(nd));
    LogFromPlus(nd.log, [e], Next(nd));
  }

  /** A line that was cut leaves the file as it read before, or, but for its newline, as after the append. */
  lemma CutReads(c: Codec<Entry>, e: Entry, text: Text, n: nat)
    requires IsCodec(c) && Made(c, text) && TidyText(c, text) && n <= |Payload(c, [e])|
    ensures Made(c, text + Payload(c, [e])[..n])
    ensures Read(c, text + Payload(c, [e])[..n]) == Read(c, text) + if n < |Payload(c, [e])| - 1 then [] else [e]
    ensures |Payload(c, [e])| >= 2
  {
    hide Read;
    var es := [e];
    assert Line(c, e) && es[1..] == [] && Payload(c, es) == c.enc(e) + "\n" + "";
    var g :| FileOk(c, g) && TextOf(c, g) == text;
    TornText(c, g, es, n);
    CleanText(c, g);
    TornReads(c, g, es, n);
    assert es[..1] == es && es[..0] == [];
  }

  /** A tidy file that is cut anywhere inside a line is tidy no more. */
  lemma CutIsTorn(c: Codec<Entry>, e: Entry, text: Text, n: nat)
    requires IsCodec(c) && Made(c, text) && TidyText(c, text) && n <= |Payload(c, [e])|
    ensures TidyText(c, text + Payload(c, [e])[..n]) <==> n == 0 || n == |Payload(c, [e])|
  {
    CutReads(c, e, text, n);
    var es := Read(c, text);
    PayloadPlus(c, es, [e]);
    assert es + [] == es;
    hide Read;
    assert Payload(c, [e])[..|Payload(c, [e])|] == Payload(c, [e]);
  }

  // ---- each move -----------------------------------------------------------

  /** What a restart reads from such a file is what the restart of the node in memory would keep. */
  lemma RestartsIs(c: Codec<Entry>, s: Solo, text: Text)
    requires Logged(c, s.nd, text)
    ensures Restarts(c, s, text).s == Solo(Restart(s.nd), Idle, s.acked)
  {
  }

  lemma CrashDiskOk(c: Codec<Entry>, s: Solo, f: seq<Entry>, text: Text)
    requires SoloOk(s, f) && TermOk(s) && Made(c, text) && Logged(c, s.nd, text)
    ensures DiskOk(c, Restarts(c, s, text), f)
  {
    CrashOk(s, f);
    RestartsIs(c, s, text);
    LogFromTwice(s.nd.log, Next(s.nd), Next(s.nd));
    hide SoloOk, LogFrom, Read;
  }

  /** Moves that write no entry leave log and file as they read. */
  lemma QuietLogged(cfg: Config, c: Codec<Entry>, s: Solo, f: seq<Entry>, text: Text, move: Move)
    requires SoloOk(s, f) && Logged(c, s.nd, text) && Moved(cfg, s, move).Some?
    requires !Writes(move) && !move.Rewrite? && !move.Crash?
    ensures Logged(c, Moved(cfg, s, move).value.nd, text)
  {
    hide LogFrom, Read, Find, TermAt;
    var nd' := Moved(cfg, s, move).value.nd;
    assert nd'.log == s.nd.log && Next(s.nd) <= Next(nd');
    LogFromTwice(Read(c, text), Next(s.nd), Next(nd'));
    LogFromTwice(s.nd.log, Next(s.nd), Next(nd'));
  }

  lemma RewriteLogged(c: Codec<Entry>, nd: Node)
    requires IsCodec(c)
    ensures Made(c, Payload(c, nd.log)) && Logged(c, nd, Payload(c, nd.log))
  {
    WrittenIs(c, nd.log);
    RewriteReads(c, nd.log);
  }

  /** The entry a writing move appends, at the end of the log. */
  lemma WritesOne(cfg: Config, s: Solo, move: Move)
    requires Writes(move) && Moved(cfg, s, move).Some?
    ensures var nd' := Moved(cfg, s, move).value.nd;
            nd'.log != [] && nd'.log == s.nd.log + [nd'.log[|nd'.log| - 1]] && nd'.snapshot == s.nd.snapshot
  {
  }

  lemma WriteLogged(cfg: Config, c: Codec<Entry>, s: Solo, text: Text, move: Move)
    requires IsCodec(c) && Made(c, text) && TidyText(c, text) && Logged(c, s.nd, text)
    requires Writes(move) && Moved(cfg, s, move).Some?
    ensures var nd' := Moved(cfg, s, move).value.nd; var text' := text + LastLine(c, nd');
            Made(c, text') && Logged(c, nd', text')
  {
    hide Moved, LogFrom, Read, Payload;
    WritesOne(cfg, s, move);
    var nd' := Moved(cfg, s, move).value.nd;
    AppendLogged(c, s.nd, nd'.log[|nd'.log| - 1], text);
  }

  lemma FullStep(cfg: Config, c: Codec<Entry>, d: Disk, f: seq<Entry>, move: Move) returns (f': seq<Entry>)
    requires cfg.size == 1 && IsCodec(c) && DiskOk(c, d, f) && DiskMoved(cfg, c, d, Full(move)).Some?
    requires Writes(move) ==> TidyText(c, d.text)
    ensures DiskOk(c, DiskMoved(cfg, c, d, Full(move)).value, f') && f <= f'
  {
    f' := MoveOk(cfg, d.s, f, move);
    var s' := Moved(cfg, d.s, move).value;
    if Writes(move) {
      WriteLogged(cfg, c, d.s, d.text, move);
    } else if move.Rewrite? {
      RewriteLogged(c, s'.nd);
    } else if move.Crash? {
      f' := f;
      CrashDiskOk(c, d.s, f, d.text);
    } else {
      QuietLogged(cfg, c, d.s, f, d.text, move);
    }
    if !move.Crash? { Rests(cfg, d.s, f, f', move); }
  }

  /** A leader between handlers has applied its whole log. */
  lemma Rests(cfg: Config, s: Solo, f: seq<Entry>, f': seq<Entry>, move: Move)
    requires SoloOk(s, f) && Moved(cfg, s, move).Some? && SoloOk(Moved(cfg, s, move).value, f') && f <= f'
    requires !move.Crash? && !Writes(move)  ==> f' == f
    ensures !move.Crash? ==> var s' := Moved(cfg, s, move).value;
            s'.stage == Idle && s'.nd.role == Leader ==> s'.nd.lastApplied == s'.nd.commitIndex == |f'|
  {
  }

  /** A crash inside an append: the entry is not in the log, or it is and lacks its newline only. */
  lemma CutStep(cfg: Config, c: Codec<Entry>, d: Disk, f: seq<Entry>, move: Move, n: nat) returns (f': seq<Entry>)
    requires cfg.size == 1 && IsCodec(c) && DiskOk(c, d, f) && DiskMoved(cfg, c, d, Cut(move, n)).Some?
             && TidyText(c, d.text)
    ensures DiskOk(c, DiskMoved(cfg, c, d, Cut(move, n)).value, f') && f <= f'
  {
    f' := MoveOk(cfg, d.s, f, move);
    WritesOne(cfg, d.s, move);
    var s' := Moved(cfg, d.s, move).value;
    var e := s'.nd.log[|s'.nd.log| - 1];
    var line := LastLine(c, s'.nd);
    var k := if n <= |line| then n else |line|;
    assert line[..|line|] == line;
    CutReads(c, e, d.text, k);
    var text' := d.text + line[..k];
    if k < |line| - 1 {
      f' := f;
      assert Read(c, text') == Read(c, d.text);
      SameDisk(cfg, d.s, move, Read(c, text'));
      CrashDiskOk(c, d.s, f, text');
    } else {
      ReadsOneMore(c, d.s.nd, e, d.text, text');
      assert s'.nd.log == d.s.nd.log + [e];
      CrashDiskOk(c, s', f', text');
    }
  }

  lemma ReadsOneMore(c: Codec<Entry>, nd: Node, e: Entry, text: Text, text': Text)
    requires Logged(c, nd, text) && Read(c, text') == Read(c, text) + [e]
    ensures Logged(c, nd.(log := nd.log + [e]), text')
  {
    hide LogFrom, Read;
    LogFromPlus(Read(c, text), [e], Next(nd));
    LogFromPlus(nd.log, [e], Next(nd));
  }

  /** Of all that a writing move changes only the file outlives a crash. */
  lemma SameDisk(cfg: Config, s: Solo, move: Move, log: seq<Entry>)
    requires Writes(move) && Moved(cfg, s, move).Some?
    ensures var s' := Moved(cfg, s, move).value;
            s'.acked == s.acked && Restart(s'.nd.(log := log)) == Restart(s.nd.(log := log))
  {
  }

  // ---- every run whose appends find a tidy file ----------------------------

  /** Some move leads on, and if it writes an entry it finds no damage in the file. */
  ghost predicate TidyAt(cfg: Config, c: Codec<Entry>, run: seq<Disk>, k: nat) {
    k + 1 < |run| ==>
      exists dm ::
        DiskMoved(cfg, c, run[k], dm) == Some(run[k + 1]) && (Writes(dm.move) ==> TidyText(c, run[k].text))
  }

  ghost predicate TidyRun(cfg: Config, c: Codec<Entry>, run: seq<Disk>) {
    && cfg.size == 1 && IsCodec(c)
    && run != [] && run[0] == Disk(Solo(Fresh(0), Idle, []), "")
    && forall k: nat :: TidyAt(cfg, c, run, k)
  }

  lemma {:induction false} TidyRunOk(cfg: Config, c: Codec<Entry>, run: seq<Disk>, n: nat) returns (fs: seq<seq<Entry>>)
    requires TidyRun(cfg, c, run) && n < |run|
    ensures |fs| == n + 1 && forall k | 0 <= k <= n :: DiskOk(c, run[k], fs[k])
    ensures forall j, k | 0 <= j <= k <= n :: fs[j] <= fs[k]
  {
    hide DiskMoved, DiskOk, TidyText;
    if n == 0 {
      fs := [[]];
      assert DiskOk(c, run[0], []) by { FirstDisk(c, run[0]); }
    } else {
      fs := TidyRunOk(cfg, c, run, n - 1);
      assert TidyAt(cfg, c, run, n - 1);
      var dm :| DiskMoved(cfg, c, run[n - 1], dm) == Some(run[n]) && (Writes(dm.move) ==> TidyText(c, run[n - 1].text));
      var f := DiskStep(cfg, c, run[n - 1], fs[n - 1], dm);
      fs := fs + [f];
    }
  }

  lemma FirstDisk(c: Codec<Entry>, d: Disk)
    requires IsCodec(c) && d == Disk(Solo(Fresh(0), Idle, []), "")
    ensures DiskOk(c, d, [])
  {
    WrittenIs(c, []);
    RewriteReads(c, []);
  }

  lemma DiskStep(cfg: Config, c: Codec<Entry>, d: Disk, f: seq<Entry>, dm: DiskMove) returns (f': seq<Entry>)
    requires cfg.size == 1 && IsCodec(c) && DiskOk(c, d, f) && DiskMoved(cfg, c, d, dm).Some?
    requires Writes(dm.move) ==> TidyText(c, d.text)
    ensures DiskOk(c, DiskMoved(cfg, c, d, dm).value, f') && f <= f'
  {
    hide DiskMoved, DiskOk, TidyText;
    match dm {
      case Full(move) => f' := FullStep(cfg, c, d, f, move);
      case Cut(move, n) =>
        CutWrites(cfg, c, d, move, n);
        f' := CutStep(cfg, c, d, f, move, n);
    }
  }

  lemma CutWrites(cfg: Config, c: Codec<Entry>, d: Disk, move: Move, n: nat)
    requires DiskMoved(cfg, c, d, Cut(move, n)).Some?
    ensures Writes(move)
  {
  }

  /** What the process is after dying at this moment, reading its files and electing itself. */
  function RecoveredFrom(cfg: Config, c: Codec<Entry>, d: Disk): Node {
    StartElection(cfg, Restarts(c, d.s, d.text).s.nd).node
  }

  /**
   As long as appends find a tidy file, crashes may also fall inside them: recovery from the text of
   the files applies the whole log, with everything ever acknowledged in it and everything ever applied
   a prefix of it.
   */
  lemma TornCrashRecovery(cfg: Config, c: Codec<Entry>, run: seq<Disk>, a: nat, b: nat)
    requires TidyRun(cfg, c, run) && a <= b < |run|
    ensures var r := RecoveredFrom(cfg, c, run[b]);
            && r.role == Leader && Numbered(r.app) && r.app != []
            && run[a].s.nd.app <= r.app
            && (forall i: nat :: AckAt(run[a].s.acked, r.app, i))
  {
    hide SoloOk, Made, Logged, TidyAt, StartElection;
    var fs := TidyRunOk(cfg, c, run, b);
    assert DiskOk(c, run[a], fs[a]) && DiskOk(c, run[b], fs[b]) && fs[a] <= fs[b];
    RestartsIs(c, run[b].s, run[b].text);
    RecoveredIs(cfg, run[b].s, fs[b]);
    AppliedAndAcked(run[a].s, fs[a], RecoveredFrom(cfg, c, run[b]).app);
    DiskNumbered(run[b].s, fs[b]);
  }

  // ---- what a torn append costs --------------------------------------------

  /** The whole log that a restart would find: the saved snapshot and what the file reads as after it. */
  function Found(c: Codec<Entry>, d: Disk): seq<Entry> {
    OnDisk(Restarts(c, d.s, d.text).s.nd)
  }

  lemma FoundIs(c: Codec<Entry>, d: Disk)
    ensures Found(c, d) == (match d.s.nd.snapshot case None => [] case Some(s) => s.state)
            + LogFrom(Read(c, d.text), Next(d.s.nd))
  {
    hide Read;
    LogFromTwice(Read(c, d.text), Next(d.s.nd), Next(d.s.nd));
  }

  /** In a state that is in order a restart finds the whole log. */
  lemma FoundAll(c: Codec<Entry>, d: Disk, f: seq<Entry>)
    requires DiskOk(c, d, f)
    ensures Found(c, d) == f
  {
    RestartsIs(c, d.s, d.text);
    CrashOk(d.s, f);
    DiskIs(Solo(Restart(d.s.nd), Idle, d.s.acked), f);
  }

  /** The entry a move appends is found by the next restart if and only if the file was tidy. */
  lemma WriteSurvives(cfg: Config, c: Codec<Entry>, d: Disk, f: seq<Entry>, move: Move)
    requires cfg.size == 1 && IsCodec(c) && DiskOk(c, d, f) && Writes(move) && DiskMoved(cfg, c, d, Full(move)).Some?
    ensures var d' := DiskMoved(cfg, c, d, Full(move)).value;
            && d'.s.nd.log != []
            && (Found(c, d') == f + [d'.s.nd.log[|d'.s.nd.log| - 1]] <==> TidyText(c, d.text))
            && (!TidyText(c, d.text) ==> Found(c, d') <= f)
  {
    var d' := DiskMoved(cfg, c, d, Full(move)).value;
    WritesOne(cfg, d.s, move);
    if TidyText(c, d.text) {
      var f' := FullStep(cfg, c, d, f, move);
      FoundAll(c, d', f');
      WritesAfter(cfg, d.s, f, move, f');
    } else {
      FoundAll(c, d, f);
      LostWrite(cfg, c, d, move);
    }
  }

  lemma WritesAfter(cfg: Config, s: Solo, f: seq<Entry>, move: Move, f': seq<Entry>)
    requires SoloOk(s, f) && Writes(move) && Moved(cfg, s, move).Some? && SoloOk(Moved(cfg, s, move).value, f')
             && f <= f'
    ensures var nd' := Moved(cfg, s, move).value.nd;
            nd'.log != [] && f' == f + [nd'.log[|nd'.log| - 1]]
  {
    hide TermOf, Numbered, Each, Peers, SaveOnly, RewriteOnly, SnapshotDue;
    LastView(s.nd, f);
    LastView(Moved(cfg, s, move).value.nd, f');
    hide Numbered, Acks, Find, Deliver;
  }

  /** On a torn file a writing move adds nothing to what a restart finds. */
  lemma LostWrite(cfg: Config, c: Codec<Entry>, d: Disk, move: Move)
    requires IsCodec(c) && Made(c, d.text) && !TidyText(c, d.text) && Writes(move)
             && DiskMoved(cfg, c, d, Full(move)).Some?
    ensures var d' := DiskMoved(cfg, c, d, Full(move)).value;
            Found(c, d') <= Found(c, d) && Made(c, d'.text) && !TidyText(c, d'.text)
                && d'.s.nd.snapshot == d.s.nd.snapshot
  {
    var d' := DiskMoved(cfg, c, d, Full(move)).value;
    WritesOne(cfg, d.s, move);
    var e := d'.s.nd.log[|d'.s.nd.log| - 1];
    var g :| FileOk(c, g) && TextOf(c, g) == d.text;
    AppendText(c, g, [e]);
    AppendLost(c, g, [e]);
    FoundIs(c, d);
    FoundIs(c, d');
    LogFromShorter(Read(c, d.text), Read(c, d'.text), Next(d.s.nd));
    hide Read, LogFrom, Found, Payload;
  }

  lemma LogFromShorter(before: seq<Entry>, after: seq<Entry>, index: nat)
    requires after <= before
    ensures LogFrom(after, index) <= LogFrom(before, index)
  {
    assert before == after + before[|after|..];
    LogFromPlus(after, before[|after|..], index);
  }

  /** A life of the process: moves that neither crash nor put a snapshot or a new log file on disk. */
  ghost predicate LivesAt(cfg: Config, c: Codec<Entry>, run: seq<Disk>, k: nat) {
    k + 1 < |run| ==>
      exists move: Move :: !move.Crash? && !move.Save? && !move.Rewrite?
          && DiskMoved(cfg, c, run[k], Full(move)) == Some(run[k + 1])
  }

  /**
   Once an append was torn, nothing that is acknowledged from then on survives the next crash, until
   a snapshot is saved: a restart finds no entry past those there were before.
   */
  lemma {:induction false} LifeLost(cfg: Config, c: Codec<Entry>, run: seq<Disk>, f: seq<Entry>)
    requires IsCodec(c) && run != [] && DiskOk(c, run[0], f) && !TidyText(c, run[0].text)
    requires forall k: nat :: LivesAt(cfg, c, run, k)
    ensures var d := run[|run| - 1];
            Found(c, d) <= f && forall i | 0 <= i < |d.s.acked| && d.s.acked[i].index > |f| ::
                d.s.acked[i] !in Found(c, d)
  {
    LifeFinds(cfg, c, run, |run| - 1);
    FoundAll(c, run[0], f);
    DiskNumbered(run[0].s, f);
  }

  lemma {:induction false} LifeFinds(cfg: Config, c: Codec<Entry>, run: seq<Disk>, n: nat)
    requires IsCodec(c) && n < |run| && Made(c, run[0].text) && !TidyText(c, run[0].text)
    requires forall k: nat :: LivesAt(cfg, c, run, k)
    ensures Found(c, run[n]) <= Found(c, run[0]) && Made(c, run[n].text) && !TidyText(c, run[n].text)
  {
    hide Made, TidyText, Found, DiskMoved;
    if n > 0 {
      LifeFinds(cfg, c, run, n - 1);
      assert LivesAt(cfg, c, run, n - 1);
      var move: Move :| !move.Crash? && !move.Save? && !move.Rewrite?
          && DiskMoved(cfg, c, run[n - 1], Full(move)) == Some(run[n]);
      LifeStep(cfg, c, run[n - 1], move);
    }
  }

  lemma QuietMove(cfg: Config, s: Solo, move: Move)
    requires Moved(cfg, s, move).Some? && !Writes(move) && !move.Crash? && !move.Save? && !move.Rewrite?
    ensures Moved(cfg, s, move).value.nd.snapshot == s.nd.snapshot
  {
    hide Find, TermAt;
  }

  lemma LifeStep(cfg: Config, c: Codec<Entry>, d: Disk, move: Move)
    requires IsCodec(c) && Made(c, d.text) && !TidyText(c, d.text) && DiskMoved(cfg, c, d, Full(move)).Some?
    requires !move.Crash? && !move.Save? && !move.Rewrite?
    ensures var d' := DiskMoved(cfg, c, d, Full(move)).value;
            Found(c, d') <= Found(c, d) && Made(c, d'.text) && !TidyText(c, d'.text)
  {
    if Writes(move) {
      LostWrite(cfg, c, d, move);
    } else {
      QuietMove(cfg, d.s, move);
      FoundIs(c, d);
      FoundIs(c, DiskMoved(cfg, c, d, Full(move)).value);
      hide Moved, Read, LogFrom, Found;
    }
  }
}
