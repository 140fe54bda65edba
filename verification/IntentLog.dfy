/** The write-ahead intent log: pending and committed lines, rotation, reopening, recovery scan, clean-up. */
module IntentLog {
  import opened Prelude

  const TWO_TO_THE_64: nat := 0x1_0000_0000_0000_0000
  type u64 = n: nat | n < 0x1_0000_0000_0000_0000

  datatype OpType = Store | Delete | Purge | PurgeChunk | Consolidate

  datatype OpStatus = Pending | Committed

  datatype IntentEntry = IntentEntry(seqno: u64, ts: nat, op: OpType, id: string, status: OpStatus)

  /** One line of a file; blank and unparseable lines carry nothing but their length. */
  datatype Line = Parsed(entry: IntentEntry) | Noise(length: nat)

  type File = seq<Line>

  datatype ArchiveName = ArchiveName(ts: nat, rot: nat)

  datatype Dir = Dir(archives: map<ArchiveName, File>, current: Option<File>)

  datatype Config = Config(maxSize: nat, maxAge: nat, length: IntentEntry -> nat)

  datatype Log = Log(dir: Dir, fileSize: nat, nextSeq: u64, rotateCounter: nat)

  /** How a write can go wrong: not written, written but not flushed, written but not rotated. */
  datatype Fault = NoFault | WriteFault | FlushFault | RotateFault

  // ------------------------------------------------------------------------ what files contain

  function Pendings(file: File): set<IntentEntry> {
    set l | l in file && l.Parsed? && l.entry.status.Pending? :: l.entry
  }

  function Commits(file: File): set<u64> {
    set l | l in file && l.Parsed? && l.entry.status.Committed? :: l.entry.seqno
  }

  function Seqs(file: File): set<u64> {
    set l | l in file && l.Parsed? :: l.entry.seqno
  }

  function CurrentLines(dir: Dir): File {
    if dir.current.Some? then dir.current.value else []
  }

  ghost function AllPendings(dir: Dir): set<IntentEntry> {
    (set n, e | n in dir.archives && e in Pendings(dir.archives[n]) :: e) + Pendings(CurrentLines(dir))
  }

  ghost function AllCommits(dir: Dir): set<u64> {
    (set n, c | n in dir.archives && c in Commits(dir.archives[n]) :: c) + Commits(CurrentLines(dir))
  }

  ghost function AllSeqs(dir: Dir): set<u64> {
    (set n, c | n in dir.archives && c in Seqs(dir.archives[n]) :: c) + Seqs(CurrentLines(dir))
  }

  /** The abstract log: what was issued and is not committed. */
  function Unresolved(pendings: set<IntentEntry>, commits: set<u64>): set<IntentEntry> {
    set e | e in pendings && e.seqno !in commits
  }

  ghost predicate OneEntryPerSeq(pendings: set<IntentEntry>) {
    forall e, f :: e in pendings && f in pendings && e.seqno == f.seqno ==> e == f
  }

  // --------------------------------------------------------------------------------- scanning

  datatype Scan = Scan(pending: map<u64, IntentEntry>, committed: set<u64>)

  function ScanLine(s: Scan, line: Line): Scan {
    if line.Noise? then s
    else if line.entry.status.Pending? && line.entry.seqno !in s.committed then
      s.(pending := s.pending[line.entry.seqno := line.entry])
    else if line.entry.status.Committed? then
      Scan(s.pending - {line.entry.seqno}, s.committed + {line.entry.seqno})
    else s
  }

  function ScanLines(s: Scan, file: File): Scan
    decreases |file|
  {
    if file == [] then s else ScanLines(ScanLine(s, file[0]), file[1..])
  }

  /** A scan that has seen exactly these pending entries and commit marks, in whatever order. */
  ghost predicate HasSeen(s: Scan, pendings: set<IntentEntry>, commits: set<u64>) {
    && s.committed == commits
    && (forall n :: n in s.pending ==> s.pending[n] in pendings && s.pending[n].seqno == n && n !in commits)
    && (forall e :: e in pendings && e.seqno !in commits ==> e.seqno in s.pending)
  }

  lemma ScanLineSees(s: Scan, line: Line, pendings: set<IntentEntry>, commits: set<u64>)
    requires HasSeen(s, pendings, commits)
    ensures HasSeen(ScanLine(s, line), pendings + Pendings([line]), commits + Commits([line]))
  {
    assert line in [line];
    assert line.Parsed? ==> Pendings([line]) == if line.entry.status.Pending? then {line.entry} else {};
    assert line.Parsed? ==> Commits([line]) == if line.entry.status.Committed? then {line.entry.seqno} else {};
  }

  lemma {:induction false} ScanLinesSees(s: Scan, file: File, pendings: set<IntentEntry>, commits: set<u64>)
    requires HasSeen(s, pendings, commits)
    ensures HasSeen(ScanLines(s, file), pendings + Pendings(file), commits + Commits(file))
    decreases |file|
  {
    if file == [] {
      assert Pendings(file) == {} && Commits(file) == {};
    } else {
      var head, rest := [file[0]], file[1..];
      assert file == head + rest;
      ScanLineSees(s, file[0], pendings, commits);
      ScanLinesSees(ScanLine(s, file[0]), rest, pendings + Pendings(head), commits + Commits(head));
      FileConcat(head, rest);
      assert pendings + Pendings(head) + Pendings(rest) == pendings + Pendings(file);
      assert commits + Commits(head) + Commits(rest) == commits + Commits(file);
    }
  }

  lemma {:induction false} ScanConcat(s: Scan, a: File, b: File)
    ensures ScanLines(s, a + b) == ScanLines(ScanLines(s, a), b)
    decreases |a|
  {
    if a == [] {
      assert a + b == b;
    } else {
      assert (a + b)[0] == a[0] && (a + b)[1..] == a[1..] + b;
      ScanConcat(ScanLine(s, a[0]), a[1..], b);
    }
  }

  lemma ScanSnoc(s: Scan, file: File, line: Line)
    ensures ScanLines(s, file + [line]) == ScanLine(ScanLines(s, file), line)
  {
    ScanConcat(s, file, [line]);
    assert [line][1..] == [];
  }

  predicate PendsAs(line: Line, n: u64) {
    line.Parsed? && line.entry.status.Pending? && line.entry.seqno == n
  }

  /** The last pending line of a number. */
  ghost predicate LastPending(file: File, n: u64, i: nat) {
    i < |file| && PendsAs(file[i], n) && forall j :: i < j < |file| ==> !PendsAs(file[j], n)
  }

  /** When a number is used more than once, a scan takes its last pending line. */
  lemma {:induction false} LastPendingWins(file: File, n: u64)
    requires n in ScanLines(Scan(map[], {}), file).pending
    ensures exists i: nat :: LastPending(file, n, i) && file[i] == Parsed(ScanLines(Scan(map[], {}), file).pending[n])
    decreases |file|
  {
    if file != [] {
      var k := |file| - 1;
      var init, last := file[..k], file[k];
      assert file == init + [last];
      ScanSnoc(Scan(map[], {}), init, last);
      ScanLinesSees(Scan(map[], {}), init, {}, {});
      if PendsAs(last, n) {
        assert LastPending(file, n, k);
      } else {
        LastPendingWins(init, n);
        var i: nat :| LastPending(init, n, i) && init[i] == Parsed(ScanLines(Scan(map[], {}), init).pending[n]);
        assert LastPending(file, n, i) && file[i] == init[i];
      }
    }
  }

  lemma FileConcat(a: File, b: File)
    ensures Pendings(a + b) == Pendings(a) + Pendings(b)
    ensures Commits(a + b) == Commits(a) + Commits(b)
    ensures Seqs(a + b) == Seqs(a) + Seqs(b)
  {
    assert forall l :: l in a + b <==> l in a || l in b;
  }

  /** The scan's answer as a set: with one entry per sequence number it is the unresolved entries themselves. */
  lemma SeenIsUnresolved(s: Scan, pendings: set<IntentEntry>, commits: set<u64>)
    requires HasSeen(s, pendings, commits) && OneEntryPerSeq(pendings)
    ensures s.pending.Values == Unresolved(pendings, commits)
  {
    forall e | e in Unresolved(pendings, commits) ensures e in s.pending.Values {
      assert s.pending[e.seqno] == e;
    }
  }

  // -------------------------------------------------------------------------------- operations

  ghost function Max(s: set<u64>): (m: u64)
    ensures forall n :: n in s ==> n <= m
    ensures m == 0 || m in s
    decreases |s|
  {
    if s == {} then 0
    else
      var n :| n in s;
      var m := Max(s - {n});
      assert s == (s - {n}) + {n};
      if n > m then n else m
  }

  function FileLength(cfg: Config, file: File): nat {
    if file == [] then 0
    else FileLength(cfg, file[..|file| - 1]) +
         match file[|file| - 1] case Parsed(e) => cfg.length(e) case Noise(n) => n
  }

  ghost function OpenSpec(dir: Dir, cfg: Config): Option<Log> {
    var m := Max(AllSeqs(dir));
    if m + 1 >= TWO_TO_THE_64 then None
    else Some(Log(dir.(current := Some(CurrentLines(dir))), FileLength(cfg, CurrentLines(dir)), m + 1, 0))
  }

  /** The first free archive name for this timestamp at or after `from`. */
  function FreeRot(archives: set<ArchiveName>, ts: nat, from: nat): (rot: nat)
    ensures rot >= from && ArchiveName(ts, rot) !in archives
    ensures forall r :: from <= r < rot ==> ArchiveName(ts, r) in archives
    decreases |NamesFrom(archives, ts, from)|
  {
    if ArchiveName(ts, from) !in archives then from
    else
      FewerNames(archives, ts, from);
      FreeRot(archives, ts, from + 1)
  }

  ghost function NamesFrom(archives: set<ArchiveName>, ts: nat, from: nat): set<ArchiveName> {
    set n | n in archives && n.ts == ts && n.rot >= from
  }

  lemma FewerNames(archives: set<ArchiveName>, ts: nat, from: nat)
    requires ArchiveName(ts, from) in archives
    ensures |NamesFrom(archives, ts, from + 1)| < |NamesFrom(archives, ts, from)|
  {
    assert NamesFrom(archives, ts, from) == NamesFrom(archives, ts, from + 1) + {ArchiveName(ts, from)};
  }

  function RotateSpec(l: Log, cfg: Config, now: nat): Log {
    if l.fileSize < cfg.maxSize then l
    else
      var rot := FreeRot(l.dir.archives.Keys, now, l.rotateCounter);
      Log(Dir(l.dir.archives[ArchiveName(now, rot) := CurrentLines(l.dir)], Some([])), 0, l.nextSeq, rot + 1)
  }

  datatype Written = Written(log: Log, ok: bool)

  function WriteSpec(l: Log, cfg: Config, e: IntentEntry, now: nat, fault: Fault): Written {
    if fault == WriteFault then Written(l, false)
    else
      var l1 := l.(dir := l.dir.(current := Some(CurrentLines(l.dir) + [Parsed(e)])));
      if fault == FlushFault then Written(l1, false)
      else
        var l2 := l1.(fileSize := l.fileSize + cfg.length(e));
        if fault == RotateFault && l2.fileSize >= cfg.maxSize
        then Written(l2.(rotateCounter := FreeRot(l2.dir.archives.Keys, now, l2.rotateCounter) + 1), false)
        else Written(RotateSpec(l2, cfg, now), true)
  }

  function PendingEntry(l: Log, op: OpType, id: string, now: nat): IntentEntry {
    IntentEntry(l.nextSeq, now, op, id, Pending)
  }

  /** The counter is a 64-bit atomic: it wraps silently. */
  function Bump(l: Log): Log {
    l.(nextSeq := if l.nextSeq + 1 == TWO_TO_THE_64 then 0 else l.nextSeq + 1)
  }

  function AppendSpec(l: Log, cfg: Config, op: OpType, id: string, now: nat, fault: Fault): Written {
    WriteSpec(Bump(l), cfg, PendingEntry(l, op, id, now), now, fault)
  }

  function CommitSpec(l: Log, cfg: Config, seqno: u64, op: OpType, id: string, now: nat, fault: Fault): Written {
    WriteSpec(l, cfg, IntentEntry(seqno, now, op, id, Committed), now, fault)
  }

  predicate TooOld(cfg: Config, name: ArchiveName, now: nat) {
    cfg.maxAge > 0 && (if now > name.ts then now - name.ts else 0) > cfg.maxAge
  }

  /** An archive that cannot be opened counts as one without pending lines. */
  predicate Removable(dir: Dir, cfg: Config, now: nat, unreadable: set<ArchiveName>, name: ArchiveName) {
    name in dir.archives && (name in unreadable || Pendings(dir.archives[name]) == {} || TooOld(cfg, name, now))
  }

  function Remove(dir: Dir, names: set<ArchiveName>): Dir {
    dir.(archives := dir.archives - names)
  }

  /** What a whole clean-up removes. */
  function Swept(dir: Dir, cfg: Config, now: nat, unreadable: set<ArchiveName>): set<ArchiveName> {
    set n | n in dir.archives && Removable(dir, cfg, now, unreadable, n)
  }

  function GcSpec(dir: Dir, cfg: Config, now: nat, unreadable: set<ArchiveName>): Dir {
    Remove(dir, Swept(dir, cfg, now, unreadable))
  }

  // ------------------------------------------------------------ what the definitions come to

  /** Rotation is due at the limit: the lines move under the first free number of this second, and an empty file goes on. */
  lemma RotateMeans(l: Log, cfg: Config, now: nat)
    ensures var r := RotateSpec(l, cfg, now);
            && r.nextSeq == l.nextSeq
            && (l.fileSize < cfg.maxSize ==> r == l)
            && (l.fileSize >= cfg.maxSize ==>
                  && r.rotateCounter > l.rotateCounter && r.fileSize == 0 && r.dir.current == Some([])
                  && var name := ArchiveName(now, r.rotateCounter - 1);
                    && name !in l.dir.archives && r.dir.archives.Keys == l.dir.archives.Keys + {name}
                    && r.dir.archives[name] == CurrentLines(l.dir)
                    && (forall n :: n in l.dir.archives ==> r.dir.archives[n] == l.dir.archives[n])
                    && forall k :: l.rotateCounter <= k < name.rot ==> ArchiveName(now, k) in l.dir.archives)
  {
  }

  lemma {:induction false} LengthsAddUp(cfg: Config, a: File, b: File)
    ensures FileLength(cfg, a + b) == FileLength(cfg, a) + FileLength(cfg, b)
    ensures forall e :: FileLength(cfg, [Parsed(e)]) == cfg.length(e)
    ensures forall n :: FileLength(cfg, [Noise(n)]) == n
    decreases |b|
  {
    forall e ensures FileLength(cfg, [Parsed(e)]) == cfg.length(e) { assert [Parsed(e)][..0] == []; }
    forall n ensures FileLength(cfg, [Noise(n)]) == n { assert [Noise(n)][..0] == []; }
    if b == [] {
      assert a + b == a;
    } else {
      var n := |b| - 1;
      assert (a + b)[..|a| + n] == a + b[..n] && (a + b)[|a| + n] == b[n];
      LengthsAddUp(cfg, a, b[..n]);
    }
  }

  /**
   * The size that decides about rotation is the length of the current file, until a write that was not flushed
   * leaves a line behind that is not counted. A write succeeds unless it, its flush or a rotation that was due failed.
   */
  lemma SizeIsTracked(l: Log, cfg: Config, e: IntentEntry, now: nat, fault: Fault)
    requires l.fileSize == FileLength(cfg, CurrentLines(l.dir))
    ensures var w := WriteSpec(l, cfg, e, now, fault);
            var uncounted := if fault == FlushFault then cfg.length(e) else 0;
            && FileLength(cfg, CurrentLines(w.log.dir)) == w.log.fileSize + uncounted
            && (w.ok <==> fault == NoFault || (fault == RotateFault && l.fileSize + cfg.length(e) < cfg.maxSize))
            && (w.ok ==> w.log.fileSize < cfg.maxSize || cfg.maxSize == 0)
  {
    LengthsAddUp(cfg, CurrentLines(l.dir), [Parsed(e)]);
  }

  /** What a write leaves of everything but the current file and the archive a rotation makes of it. */
  lemma WriteMeans(l: Log, cfg: Config, e: IntentEntry, now: nat, fault: Fault)
    ensures var w := WriteSpec(l, cfg, e, now, fault);
            var lines := CurrentLines(l.dir) + [Parsed(e)];
            var due := fault in {NoFault, RotateFault} && l.fileSize + cfg.length(e) >= cfg.maxSize;
            && (fault == WriteFault ==> w.log == l)
            && (fault != WriteFault && !(due && fault == NoFault) ==>
                  w.log.dir.current == Some(lines) && w.log.dir.archives == l.dir.archives)
            && (due && fault == NoFault ==>
                  && w.log.dir.current == Some([]) && w.log.rotateCounter > l.rotateCounter
                  && w.log.dir.archives == l.dir.archives[ArchiveName(now, w.log.rotateCounter - 1) := lines])
            && (!due ==> w.log.rotateCounter == l.rotateCounter)
            && (due && fault == RotateFault ==>
                  w.log.rotateCounter > l.rotateCounter && ArchiveName(now, w.log.rotateCounter - 1) !in l.dir.archives)
  {
  }

  /** A log opens with the smallest number above every one in its files, unless the largest there can be is used. */
  lemma OpenMeans(dir: Dir, cfg: Config)
    ensures OpenSpec(dir, cfg) == None <==> exists n :: n in AllSeqs(dir) && n == TWO_TO_THE_64 - 1
    ensures OpenSpec(dir, cfg).Some? ==>
              var l := OpenSpec(dir, cfg).value;
              && (forall n :: n in AllSeqs(dir) ==> n < l.nextSeq) && l.nextSeq >= 1
              && (l.nextSeq > 1 ==> exists n :: n in AllSeqs(dir) && n == l.nextSeq - 1)
              && l.dir.archives == dir.archives && l.dir.current == Some(CurrentLines(dir))
              && l.fileSize == FileLength(cfg, CurrentLines(dir)) && l.rotateCounter == 0
  {
  }

  /** Every append uses up the next number, also when its write fails; after the largest comes zero. */
  lemma AppendUsesANumber(l: Log, cfg: Config, op: OpType, id: string, now: nat, fault: Fault)
    ensures AppendSpec(l, cfg, op, id, now, fault).log.nextSeq == (l.nextSeq + 1) % TWO_TO_THE_64
  {
    WriteAddsLine(Bump(l), cfg, PendingEntry(l, op, id, now), now, fault);
  }

  /** Gone is every archive without a pending line, every one that cannot be opened, and with an age limit every one past it. */
  lemma GcMeans(dir: Dir, cfg: Config, now: nat, unreadable: set<ArchiveName>, name: ArchiveName)
    ensures var after := GcSpec(dir, cfg, now, unreadable);
            && after.current == dir.current
            && (name in after.archives ==> name in dir.archives && after.archives[name] == dir.archives[name])
            && (name in dir.archives ==>
                  (name !in after.archives <==>
                     || name in unreadable
                     || (forall e :: Parsed(e) in dir.archives[name] ==> e.status == Committed)
                     || (cfg.maxAge > 0 && name.ts + cfg.maxAge < now)))
  {
    if name in dir.archives {
      var file := dir.archives[name];
      forall e | Parsed(e) in file && e.status == Pending ensures e in Pendings(file) {}
      if Pendings(file) != {} {
        var e :| e in Pendings(file);
        assert Parsed(e) in file;
      }
    }
  }

  // ------------------------------------------------------------- what each step does to the sets

  lemma WriteAddsLine(l: Log, cfg: Config, e: IntentEntry, now: nat, fault: Fault)
    ensures var w := WriteSpec(l, cfg, e, now, fault);
            && w.log.nextSeq == l.nextSeq
            && (fault == WriteFault ==> w.log == l)
            && (fault != WriteFault ==>
                && w.log.dir.current.Some?
                && AllPendings(w.log.dir) == AllPendings(l.dir) + Pendings([Parsed(e)])
                && AllCommits(w.log.dir) == AllCommits(l.dir) + Commits([Parsed(e)])
                && AllSeqs(w.log.dir) == AllSeqs(l.dir) + {e.seqno})
  {
    if fault != WriteFault {
      var lines := CurrentLines(l.dir);
      FileConcat(lines, [Parsed(e)]);
      assert Parsed(e) in [Parsed(e)];
      assert Seqs([Parsed(e)]) == {e.seqno};
      var l1 := l.(dir := l.dir.(current := Some(lines + [Parsed(e)])), fileSize := l.fileSize + cfg.length(e));
      RotateKeepsLines(l1, cfg, now);
    }
  }

  ghost predicate HasLine(dir: Dir, line: Line) {
    line in CurrentLines(dir) || exists n :: n in dir.archives && line in dir.archives[n]
  }

  lemma WriteLeavesLine(l: Log, cfg: Config, e: IntentEntry, now: nat, fault: Fault)
    requires fault != WriteFault
    ensures HasLine(WriteSpec(l, cfg, e, now, fault).log.dir, Parsed(e))
  {
    var dir, lines := WriteSpec(l, cfg, e, now, fault).log.dir, CurrentLines(l.dir) + [Parsed(e)];
    assert lines[|lines| - 1] == Parsed(e);
    if CurrentLines(dir) != lines {
      var n := ArchiveName(now, FreeRot(l.dir.archives.Keys, now, l.rotateCounter));
      assert dir.archives[n] == lines;
    }
  }

  /** The lines on disk say what the callers of append and commit said. */
  lemma LinesSayWhatWasAsked(l: Log, cfg: Config, n: u64, op: OpType, id: string, now: nat, fault: Fault)
    requires fault != WriteFault
    ensures HasLine(AppendSpec(l, cfg, op, id, now, fault).log.dir, Parsed(IntentEntry(l.nextSeq, now, op, id, Pending)))
    ensures HasLine(CommitSpec(l, cfg, n, op, id, now, fault).log.dir, Parsed(IntentEntry(n, now, op, id, Committed)))
  {
    WriteLeavesLine(Bump(l), cfg, PendingEntry(l, op, id, now), now, fault);
    WriteLeavesLine(l, cfg, IntentEntry(n, now, op, id, Committed), now, fault);
  }

  lemma RotateKeepsLines(l: Log, cfg: Config, now: nat)
    ensures var r := RotateSpec(l, cfg, now);
            && r.nextSeq == l.nextSeq
            && AllPendings(r.dir) == AllPendings(l.dir)
            && AllCommits(r.dir) == AllCommits(l.dir)
            && AllSeqs(r.dir) == AllSeqs(l.dir)
  {
    if l.fileSize >= cfg.maxSize {
      var rot := FreeRot(l.dir.archives.Keys, now, l.rotateCounter);
      var name, lines := ArchiveName(now, rot), CurrentLines(l.dir);
      var archives := l.dir.archives[name := lines];
      assert forall n :: n in l.dir.archives ==> n in archives && archives[n] == l.dir.archives[n];
      assert name in archives && archives[name] == lines;
      assert Pendings([]) == {} && Commits([]) == {} && Seqs([]) == {};
      var r := RotateSpec(l, cfg, now);
      assert r.dir.archives == archives;
      assert forall e :: e in AllPendings(l.dir) ==> e in AllPendings(r.dir);
      assert forall e :: e in AllCommits(l.dir) ==> e in AllCommits(r.dir);
      assert forall e :: e in AllSeqs(l.dir) ==> e in AllSeqs(r.dir);
    }
  }

  /** Removing archives without pending lines loses no pending entry, but may lose commit marks. */
  lemma RemoveKeepsPendings(dir: Dir, names: set<ArchiveName>)
    requires forall n :: n in names ==> n in dir.archives && Pendings(dir.archives[n]) == {}
    ensures AllPendings(Remove(dir, names)) == AllPendings(dir)
    ensures AllCommits(Remove(dir, names)) <= AllCommits(dir)
    ensures AllSeqs(Remove(dir, names)) <= AllSeqs(dir)
  {
    RemoveShrinks(dir, names);
    var kept := Remove(dir, names).archives;
    assert forall n :: n in dir.archives && n !in names ==> n in kept && kept[n] == dir.archives[n];
  }

  lemma RemoveShrinks(dir: Dir, names: set<ArchiveName>)
    ensures AllPendings(Remove(dir, names)) <= AllPendings(dir)
    ensures AllCommits(Remove(dir, names)) <= AllCommits(dir)
    ensures AllSeqs(Remove(dir, names)) <= AllSeqs(dir)
  {
    var kept := Remove(dir, names).archives;
    assert forall n :: n in kept ==> n in dir.archives && kept[n] == dir.archives[n];
  }

  // ------------------------------------------------------------------------- what removing archives loses

  /** This pending entry stands in the current file or in an archive that is kept. */
  ghost predicate PendingOutside(dir: Dir, names: set<ArchiveName>, e: IntentEntry) {
    e in Pendings(CurrentLines(dir)) || exists a :: a in dir.archives && a !in names && e in Pendings(dir.archives[a])
  }

  /** A commit mark for this number stands in the current file or in an archive that is kept. */
  ghost predicate MarkedOutside(dir: Dir, names: set<ArchiveName>, n: u64) {
    n in Commits(CurrentLines(dir)) || exists a :: a in dir.archives && a !in names && n in Commits(dir.archives[a])
  }

  lemma CommitsAfterRemove(dir: Dir, names: set<ArchiveName>, n: u64)
    ensures n in AllCommits(Remove(dir, names)) <==> MarkedOutside(dir, names, n)
  {
    var kept := Remove(dir, names).archives;
    if a :| a in dir.archives && a !in names && n in Commits(dir.archives[a]) {
      assert a in kept && kept[a] == dir.archives[a];
    }
  }

  lemma PendingsAfterRemove(dir: Dir, names: set<ArchiveName>, e: IntentEntry)
    ensures e in AllPendings(Remove(dir, names)) <==> PendingOutside(dir, names, e)
  {
    var kept := Remove(dir, names).archives;
    if a :| a in dir.archives && a !in names && e in Pendings(dir.archives[a]) {
      assert a in kept && kept[a] == dir.archives[a];
    }
  }

  ghost function Found(dir: Dir): set<IntentEntry> {
    Unresolved(AllPendings(dir), AllCommits(dir))
  }

  lemma FoundAfterRemove(dir: Dir, names: set<ArchiveName>, e: IntentEntry)
    ensures e in Found(Remove(dir, names)) <==> PendingOutside(dir, names, e) && !MarkedOutside(dir, names, e.seqno)
    ensures e in Found(dir) && PendingOutside(dir, names, e) ==> e in Found(Remove(dir, names))
  {
    PendingsAfterRemove(dir, names, e);
    CommitsAfterRemove(dir, names, e.seqno);
    RemoveShrinks(dir, names);
  }

  /** No removed archive holds the last copy of an unresolved pending entry. */
  ghost predicate Keeps(dir: Dir, names: set<ArchiveName>) {
    forall n, e :: n in names && n in dir.archives && e in Pendings(dir.archives[n]) && e.seqno !in AllCommits(dir) ==>
      PendingOutside(dir, names, e)
  }

  /** Removing archives, for whatever reason, loses no unresolved entry exactly if none holds the last copy of one. */
  lemma RemoveLosesIff(dir: Dir, names: set<ArchiveName>)
    ensures Found(dir) <= Found(Remove(dir, names)) <==> Keeps(dir, names)
  {
    if Keeps(dir, names) {
      forall e | e in Found(dir) ensures e in Found(Remove(dir, names)) {
        if e !in Pendings(CurrentLines(dir)) {
          var n :| n in dir.archives && e in Pendings(dir.archives[n]);
          assert n in names ==> PendingOutside(dir, names, e);
        }
        FoundAfterRemove(dir, names, e);
      }
    }
    if Found(dir) <= Found(Remove(dir, names)) {
      forall n, e | n in names && n in dir.archives && e in Pendings(dir.archives[n]) && e.seqno !in AllCommits(dir)
        ensures PendingOutside(dir, names, e)
      {
        assert e in Found(dir);
        FoundAfterRemove(dir, names, e);
      }
    }
  }

  /** Every pending entry that outlives the removal and was marked keeps a mark. */
  ghost predicate KeepsMarks(dir: Dir, names: set<ArchiveName>) {
    forall e :: e in AllPendings(dir) && e.seqno in AllCommits(dir) && PendingOutside(dir, names, e) ==>
      MarkedOutside(dir, names, e.seqno)
  }

  /**
   * Removing archives, for whatever reason, leaves what recovery finds unchanged exactly if neither the last
   * copy of an unresolved entry goes nor all the marks of an entry that stays.
   */
  lemma RemoveExactIff(dir: Dir, names: set<ArchiveName>)
    ensures Found(Remove(dir, names)) == Found(dir) <==> Keeps(dir, names) && KeepsMarks(dir, names)
  {
    RemoveLosesIff(dir, names);
    RemoveShrinks(dir, names);
    forall e ensures e in Found(Remove(dir, names)) <==> PendingOutside(dir, names, e) && !MarkedOutside(dir, names, e.seqno) {
      FoundAfterRemove(dir, names, e);
    }
    forall e | PendingOutside(dir, names, e) ensures e in AllPendings(dir) { PendingsAfterRemove(dir, names, e); }
  }

  /** A clean-up that opens this archive keeps it. */
  predicate Kept(dir: Dir, cfg: Config, now: nat, unreadable: set<ArchiveName>, a: ArchiveName) {
    a in dir.archives && a !in unreadable && Pendings(dir.archives[a]) != {} && !TooOld(cfg, a, now)
  }

  ghost predicate PendingKept(dir: Dir, cfg: Config, now: nat, unreadable: set<ArchiveName>, e: IntentEntry) {
    e in Pendings(CurrentLines(dir)) || exists a :: Kept(dir, cfg, now, unreadable, a) && e in Pendings(dir.archives[a])
  }

  ghost predicate MarkKept(dir: Dir, cfg: Config, now: nat, unreadable: set<ArchiveName>, n: u64) {
    n in Commits(CurrentLines(dir)) || exists a :: Kept(dir, cfg, now, unreadable, a) && n in Commits(dir.archives[a])
  }

  /**
   * For a whole clean-up, in terms of the directory and the archives it cannot open: exactly if every
   * unresolved entry, and a mark of every other entry that stays, stands in the current file or in a young
   * archive that is opened and has a pending line.
   */
  lemma GcExactIff(dir: Dir, cfg: Config, now: nat, unreadable: set<ArchiveName>)
    ensures Found(GcSpec(dir, cfg, now, unreadable)) == Found(dir) <==>
              && (forall e :: e in Found(dir) ==> PendingKept(dir, cfg, now, unreadable, e))
              && (forall e :: e in AllPendings(dir) && e.seqno in AllCommits(dir) && PendingKept(dir, cfg, now, unreadable, e) ==>
                    MarkKept(dir, cfg, now, unreadable, e.seqno))
  {
    var names := Swept(dir, cfg, now, unreadable);
    KeptIsOutside(dir, cfg, now, unreadable);
    RemoveExactIff(dir, names);
    if forall e :: e in Found(dir) ==> PendingOutside(dir, names, e) {
      forall n, e | n in names && n in dir.archives && e in Pendings(dir.archives[n]) && e.seqno !in AllCommits(dir)
        ensures PendingOutside(dir, names, e)
      {
        assert e in Found(dir);
      }
    }
    if Found(GcSpec(dir, cfg, now, unreadable)) == Found(dir) {
      forall e | e in Found(dir) ensures PendingOutside(dir, names, e) { FoundAfterRemove(dir, names, e); }
    }
  }

  lemma KeptIsOutside(dir: Dir, cfg: Config, now: nat, unreadable: set<ArchiveName>)
    ensures var names := Swept(dir, cfg, now, unreadable);
            && (forall e :: PendingKept(dir, cfg, now, unreadable, e) <==> PendingOutside(dir, names, e))
            && (forall n :: MarkKept(dir, cfg, now, unreadable, n) <==> MarkedOutside(dir, names, n))
  {
    var names := Swept(dir, cfg, now, unreadable);
    assert forall a :: Kept(dir, cfg, now, unreadable, a) <==> a in dir.archives && a !in names;
  }

  // ------------------------------------------------------------------------- runs of the machine

  datatype Action =
    | Append(op: OpType, id: string, now: nat, fault: Fault)
    | Commit(seqno: u64, op: OpType, id: string, now: nat, fault: Fault)
    | Reopen
    | Gc(now: nat, unreadable: set<ArchiveName>, names: set<ArchiveName>)

  /** What a caller asked to have recorded. */
  datatype Ask = Ask(op: OpType, id: string, now: nat)

  /**
   * The log together with what its callers know: what the operation was that was last given each number, and
   * which numbers were given out and not committed since.
   */
  datatype Machine = Machine(log: Log, issued: map<u64, Ask>, outstanding: set<u64>)

  /** The entry says what the caller asked for when it was given this number. */
  predicate AsAsked(issued: map<u64, Ask>, e: IntentEntry) {
    e.seqno in issued && e.op == issued[e.seqno].op && e.id == issued[e.seqno].id && e.ts == issued[e.seqno].now
  }

  ghost predicate AllAsAsked(issued: map<u64, Ask>, entries: set<IntentEntry>) {
    forall e :: e in entries ==> AsAsked(issued, e)
  }

  function Numbers(entries: set<IntentEntry>): set<u64> {
    set e | e in entries :: e.seqno
  }

  /**
   * Callers commit numbers the counter gave them, and it is not about to wrap. A clean-up may be unable to
   * open some archives, and may be cut short, so it removes any part of what it may remove.
   */
  ghost predicate Enabled(m: Machine, cfg: Config, a: Action) {
    match a
    case Append(_, _, _, _) => m.log.nextSeq + 1 < TWO_TO_THE_64
    case Commit(n, _, _, _, _) => n in m.issued && n < m.log.nextSeq
    case Reopen => OpenSpec(m.log.dir, cfg).Some?
    case Gc(now, unreadable, names) => forall n :: n in names ==> Removable(m.log.dir, cfg, now, unreadable, n)
  }

  ghost function Next(m: Machine, cfg: Config, a: Action): Machine
    requires Enabled(m, cfg, a)
  {
    match a
    case Append(op, id, now, fault) =>
      var log := AppendSpec(m.log, cfg, op, id, now, fault).log;
      if fault == WriteFault then m.(log := log)
      else Machine(log, m.issued[m.log.nextSeq := Ask(op, id, now)], m.outstanding + {m.log.nextSeq})
    case Commit(n, op, id, now, fault) =>
      Machine(CommitSpec(m.log, cfg, n, op, id, now, fault).log, m.issued,
              if fault == WriteFault then m.outstanding else m.outstanding - {n})
    case Reopen => m.(log := OpenSpec(m.log.dir, cfg).value)
    case Gc(_, _, names) => m.(log := m.log.(dir := Remove(m.log.dir, names)))
  }

  ghost predicate Allowed(m: Machine, cfg: Config, run: seq<Action>)
    decreases |run|
  {
    run == [] || (Enabled(m, cfg, run[0]) && Allowed(Next(m, cfg, run[0]), cfg, run[1..]))
  }

  ghost function After(m: Machine, cfg: Config, run: seq<Action>): Machine
    requires Allowed(m, cfg, run)
    decreases |run|
  {
    if run == [] then m else After(Next(m, cfg, run[0]), cfg, run[1..])
  }

  /** A run is its actions one after the other, each enabled where it is taken. */
  lemma {:induction false} RunsTakeEach(m: Machine, cfg: Config, run: seq<Action>, a: Action)
    ensures Allowed(m, cfg, [])
    ensures Allowed(m, cfg, run + [a]) <==> Allowed(m, cfg, run) && Enabled(After(m, cfg, run), cfg, a)
    ensures Allowed(m, cfg, run + [a]) ==> After(m, cfg, run + [a]) == Next(After(m, cfg, run), cfg, a)
    decreases |run|
  {
    if run == [] {
      assert [a][1..] == [] && run + [a] == [a];
    } else {
      assert (run + [a])[1..] == run[1..] + [a];
      if Enabled(m, cfg, run[0]) { RunsTakeEach(Next(m, cfg, run[0]), cfg, run[1..], a); }
    }
  }

  predicate NoGc(run: seq<Action>) {
    forall i :: 0 <= i < |run| ==> !run[i].Gc?
  }

  /** No clean-up of the run removes the last copy of an entry that is unresolved when it starts. */
  ghost predicate Careful(m: Machine, cfg: Config, run: seq<Action>)
    requires Allowed(m, cfg, run)
    decreases |run|
  {
    run == [] || ((run[0].Gc? ==> Keeps(m.log.dir, run[0].names)) && Careful(Next(m, cfg, run[0]), cfg, run[1..]))
  }

  function Fresh(): Machine {
    Machine(Log(Dir(map[], Some([])), 0, 1, 0), map[], {})
  }

  ghost predicate Ordered(l: Log) {
    forall n :: n in AllSeqs(l.dir) ==> n < l.nextSeq
  }

  /** What a machine amounts to: the sets in its files, its counter, and what really happened. */
  datatype Facts = Facts(pendings: set<IntentEntry>, commits: set<u64>, seqs: set<u64>, nextSeq: u64,
                         issued: map<u64, Ask>, outstanding: set<u64>)

  ghost function FactsOf(m: Machine): Facts {
    Facts(AllPendings(m.log.dir), AllCommits(m.log.dir), AllSeqs(m.log.dir), m.log.nextSeq, m.issued, m.outstanding)
  }

  ghost predicate FactsOk(f: Facts) {
    && f.outstanding <= Numbers(f.pendings) && AllAsAsked(f.issued, f.pendings)
    && f.outstanding !! f.commits
    && OneEntryPerSeq(f.pendings)
    && f.commits <= f.seqs && Numbers(f.pendings) <= f.seqs
    && forall n :: n in f.seqs ==> n < f.nextSeq
  }

  ghost predicate Inv(m: Machine) {
    m.log.dir.current.Some? && FactsOk(FactsOf(m))
  }

  /** Recovery would find just what is outstanding. */
  ghost predicate Exact(m: Machine) {
    Numbers(Found(m.log.dir)) == m.outstanding
  }

  /** An append on record: its line and its number, and what the caller asked for. */
  function Appended(f: Facts, ask: Ask): Facts
    requires f.nextSeq + 1 < TWO_TO_THE_64
  {
    f.(pendings := f.pendings + {IntentEntry(f.nextSeq, ask.now, ask.op, ask.id, Pending)}, seqs := f.seqs + {f.nextSeq},
       nextSeq := f.nextSeq + 1, issued := f.issued[f.nextSeq := ask], outstanding := f.outstanding + {f.nextSeq})
  }

  lemma AppendedOk(f: Facts, ask: Ask)
    requires FactsOk(f) && f.nextSeq + 1 < TWO_TO_THE_64
    ensures FactsOk(Appended(f, ask))
    ensures var e := IntentEntry(f.nextSeq, ask.now, ask.op, ask.id, Pending);
            Numbers(Unresolved(f.pendings + {e}, f.commits)) == Numbers(Unresolved(f.pendings, f.commits)) + {f.nextSeq}
  {
    var e := IntentEntry(f.nextSeq, ask.now, ask.op, ask.id, Pending);
    OneNumberMore(f.pendings, e);
    assert forall g :: g in f.pendings ==> g.seqno in Numbers(f.pendings);
    assert Unresolved(f.pendings + {e}, f.commits) == Unresolved(f.pendings, f.commits) + {e};
  }

  lemma OneLine(e: IntentEntry)
    ensures Pendings([Parsed(e)]) == if e.status.Pending? then {e} else {}
    ensures Commits([Parsed(e)]) == if e.status.Committed? then {e.seqno} else {}
  {
    assert Parsed(e) in [Parsed(e)];
  }

  lemma AppendFacts(m: Machine, cfg: Config, op: OpType, id: string, now: nat, fault: Fault)
    requires m.log.nextSeq + 1 < TWO_TO_THE_64 && m.log.dir.current.Some?
    ensures var m' := Next(m, cfg, Append(op, id, now, fault));
            && m'.log.dir.current.Some?
            && FactsOf(m') == if fault == WriteFault then FactsOf(m).(nextSeq := m.log.nextSeq + 1)
                              else Appended(FactsOf(m), Ask(op, id, now))
  {
    var e := PendingEntry(m.log, op, id, now);
    WriteAddsLine(Bump(m.log), cfg, e, now, fault);
    OneLine(e);
  }

  lemma AppendKeepsInv(m: Machine, cfg: Config, op: OpType, id: string, now: nat, fault: Fault)
    requires Inv(m) && m.log.nextSeq + 1 < TWO_TO_THE_64
    ensures Inv(Next(m, cfg, Append(op, id, now, fault)))
    ensures Exact(m) ==> Exact(Next(m, cfg, Append(op, id, now, fault)))
  {
    AppendFacts(m, cfg, op, id, now, fault);
    if fault != WriteFault { AppendedOk(FactsOf(m), Ask(op, id, now)); }
  }

  function Marked(f: Facts, n: u64): Facts {
    f.(commits := f.commits + {n}, seqs := f.seqs + {n}, outstanding := f.outstanding - {n})
  }

  lemma CommittedOk(f: Facts, n: u64)
    requires FactsOk(f) && n < f.nextSeq
    ensures FactsOk(Marked(f, n))
    ensures Numbers(Unresolved(f.pendings, f.commits + {n})) == Numbers(Unresolved(f.pendings, f.commits)) - {n}
  {
    forall k ensures k in Numbers(Unresolved(f.pendings, f.commits + {n})) <==>
                     k in Numbers(Unresolved(f.pendings, f.commits)) && k != n
    {
      if k in Numbers(Unresolved(f.pendings, f.commits)) && k != n {
        var e :| e in Unresolved(f.pendings, f.commits) && e.seqno == k;
        assert e in Unresolved(f.pendings, f.commits + {n});
      }
    }
  }

  lemma CommitFacts(m: Machine, cfg: Config, n: u64, op: OpType, id: string, now: nat, fault: Fault)
    requires Enabled(m, cfg, Commit(n, op, id, now, fault)) && m.log.dir.current.Some?
    ensures var m' := Next(m, cfg, Commit(n, op, id, now, fault));
            && m'.log.dir.current.Some?
            && FactsOf(m') == if fault == WriteFault then FactsOf(m) else Marked(FactsOf(m), n)
  {
    var e := IntentEntry(n, now, op, id, Committed);
    WriteAddsLine(m.log, cfg, e, now, fault);
    OneLine(e);
  }

  lemma CommitKeepsInv(m: Machine, cfg: Config, n: u64, op: OpType, id: string, now: nat, fault: Fault)
    requires Inv(m) && Enabled(m, cfg, Commit(n, op, id, now, fault))
    ensures Inv(Next(m, cfg, Commit(n, op, id, now, fault)))
    ensures Exact(m) ==> Exact(Next(m, cfg, Commit(n, op, id, now, fault)))
  {
    CommitFacts(m, cfg, n, op, id, now, fault);
    if fault != WriteFault { CommittedOk(FactsOf(m), n); }
  }

  /** Pending and commit lines both carry numbers. */
  lemma LinesHaveSeqs(dir: Dir)
    ensures Numbers(AllPendings(dir)) <= AllSeqs(dir) && AllCommits(dir) <= AllSeqs(dir)
  {
    forall e | e in AllPendings(dir) ensures e.seqno in AllSeqs(dir) {
      if e in Pendings(CurrentLines(dir)) {
        assert e.seqno in Seqs(CurrentLines(dir));
      } else {
        var n :| n in dir.archives && e in Pendings(dir.archives[n]);
        assert e.seqno in Seqs(dir.archives[n]);
      }
    }
    forall c | c in AllCommits(dir) ensures c in AllSeqs(dir) {
      if c in Commits(CurrentLines(dir)) {
        assert c in Seqs(CurrentLines(dir));
      } else {
        var n :| n in dir.archives && c in Commits(dir.archives[n]);
        assert c in Seqs(dir.archives[n]);
      }
    }
  }

  lemma RemovedOk(f: Facts, f': Facts)
    requires FactsOk(f) && f'.pendings <= f.pendings && f'.commits <= f.commits && f'.seqs <= f.seqs
    requires f'.nextSeq == f.nextSeq && f'.issued == f.issued && f'.outstanding == f.outstanding
    requires Unresolved(f.pendings, f.commits) <= f'.pendings && f'.commits <= f'.seqs && Numbers(f'.pendings) <= f'.seqs
    ensures FactsOk(f')
  {
    forall n | n in f.outstanding ensures n in Numbers(f'.pendings) {
      var e :| e in f.pendings && e.seqno == n;
      assert e in Unresolved(f.pendings, f.commits);
    }
  }

  lemma GcKeepsInv(m: Machine, cfg: Config, now: nat, unreadable: set<ArchiveName>, names: set<ArchiveName>)
    requires Inv(m) && Enabled(m, cfg, Gc(now, unreadable, names)) && Keeps(m.log.dir, names)
    ensures Inv(Next(m, cfg, Gc(now, unreadable, names)))
  {
    RemoveShrinks(m.log.dir, names);
    RemoveLosesIff(m.log.dir, names);
    LinesHaveSeqs(Remove(m.log.dir, names));
    RemovedOk(FactsOf(m), FactsOf(Next(m, cfg, Gc(now, unreadable, names))));
  }

  lemma StepKeepsInv(m: Machine, cfg: Config, a: Action)
    requires Inv(m) && Enabled(m, cfg, a) && (a.Gc? ==> Keeps(m.log.dir, a.names))
    ensures Inv(Next(m, cfg, a))
    ensures !a.Gc? && Exact(m) ==> Exact(Next(m, cfg, a))
  {
    match a
    case Append(op, id, now, fault) => AppendKeepsInv(m, cfg, op, id, now, fault);
    case Commit(n, op, id, now, fault) => CommitKeepsInv(m, cfg, n, op, id, now, fault);
    case Reopen => ReopenKeepsInv(m, cfg);
    case Gc(now, unreadable, names) => GcKeepsInv(m, cfg, now, unreadable, names);
  }

  lemma ReopenKeepsInv(m: Machine, cfg: Config)
    requires Inv(m) && Enabled(m, cfg, Reopen)
    ensures Inv(Next(m, cfg, Reopen)) && (Exact(m) ==> Exact(Next(m, cfg, Reopen)))
  {
    ReopenKeepsLines(m.log.dir, cfg);
    assert FactsOf(Next(m, cfg, Reopen)) == FactsOf(m).(nextSeq := OpenSpec(m.log.dir, cfg).value.nextSeq);
  }

  lemma ReopenKeepsLines(dir: Dir, cfg: Config)
    requires OpenSpec(dir, cfg).Some?
    ensures var l := OpenSpec(dir, cfg).value;
            && l.dir.current.Some?
            && AllPendings(l.dir) == AllPendings(dir)
            && AllCommits(l.dir) == AllCommits(dir)
            && AllSeqs(l.dir) == AllSeqs(dir)
            && Ordered(l)
  {
  }

  lemma {:induction false} RunKeepsInv(m: Machine, cfg: Config, run: seq<Action>)
    requires Inv(m) && Allowed(m, cfg, run) && Careful(m, cfg, run)
    ensures Inv(After(m, cfg, run))
    ensures NoGc(run) && Exact(m) ==> Exact(After(m, cfg, run))
    decreases |run|
  {
    if run != [] {
      StepKeepsInv(m, cfg, run[0]);
      if NoGc(run) { assert NoGc(run[1..]) by { assert forall i :: 0 <= i < |run[1..]| ==> run[1..][i] == run[i + 1]; } }
      RunKeepsInv(Next(m, cfg, run[0]), cfg, run[1..]);
    }
  }

  /** The machine begins as opening an empty directory leaves it, with nothing issued. */
  lemma FreshIsOpened(cfg: Config)
    ensures OpenSpec(Dir(map[], None), cfg) == Some(Fresh().log) && Fresh().issued == map[] && Fresh().outstanding == {}
  {
    NothingLeft(Dir(map[], None));
  }

  lemma FreshInv()
    ensures Inv(Fresh()) && Exact(Fresh())
  {
    assert Pendings([]) == {} && Commits([]) == {} && Seqs([]) == {};
    assert CurrentLines(Fresh().log.dir) == [];
  }

  lemma {:induction false} NoGcIsCareful(m: Machine, cfg: Config, run: seq<Action>)
    requires Allowed(m, cfg, run) && NoGc(run)
    ensures Careful(m, cfg, run)
    decreases |run|
  {
    if run != [] {
      assert forall i :: 0 <= i < |run[1..]| ==> run[1..][i] == run[i + 1];
      NoGcIsCareful(Next(m, cfg, run[0]), cfg, run[1..]);
    }
  }

  /** Without an age limit, clean-ups that open every archive are careful ones. */
  lemma {:induction false} OpenedIsCareful(m: Machine, cfg: Config, run: seq<Action>)
    requires Allowed(m, cfg, run) && cfg.maxAge == 0 && forall i :: 0 <= i < |run| && run[i].Gc? ==> run[i].unreadable == {}
    ensures Careful(m, cfg, run)
    decreases |run|
  {
    if run != [] {
      assert forall i :: 0 <= i < |run[1..]| ==> run[1..][i] == run[i + 1];
      OpenedIsCareful(Next(m, cfg, run[0]), cfg, run[1..]);
    }
  }

  /**
   * Recovery finds exactly the operations that were asked for and not committed, each with the operation, the id
   * and the time its caller gave, whatever was appended, committed, rotated, reopened or cut short by a fault.
   */
  lemma RecoveryIsExact(cfg: Config, run: seq<Action>, scan: Scan)
    requires Allowed(Fresh(), cfg, run) && NoGc(run)
    requires var dir := After(Fresh(), cfg, run).log.dir; HasSeen(scan, AllPendings(dir), AllCommits(dir))
    ensures var m := After(Fresh(), cfg, run);
            && scan.pending.Keys == m.outstanding
            && forall n :: n in scan.pending ==>
                 n in m.issued && scan.pending[n] == IntentEntry(n, m.issued[n].now, m.issued[n].op, m.issued[n].id, Pending)
  {
    FreshInv();
    NoGcIsCareful(Fresh(), cfg, run);
    RunKeepsInv(Fresh(), cfg, run);
    var dir := After(Fresh(), cfg, run).log.dir;
    SeenIsUnresolved(scan, AllPendings(dir), AllCommits(dir));
    SeenNumbers(scan, AllPendings(dir), AllCommits(dir));
  }

  lemma SeenNumbers(s: Scan, pendings: set<IntentEntry>, commits: set<u64>)
    requires HasSeen(s, pendings, commits)
    ensures s.pending.Keys == Numbers(Unresolved(pendings, commits))
    ensures s.pending.Values <= pendings
  {
    forall n ensures n in s.pending <==> n in Numbers(Unresolved(pendings, commits)) {
      if n in s.pending { assert s.pending[n] in Unresolved(pendings, commits); }
    }
  }

  /**
   * With clean-ups in the run too, as long as none takes the last copy of an unresolved entry, recovery still
   * finds every uncommitted operation, and everything it finds is as its caller asked.
   */
  lemma RecoveryNeverLoses(cfg: Config, run: seq<Action>, scan: Scan)
    requires Allowed(Fresh(), cfg, run) && Careful(Fresh(), cfg, run)
    requires var dir := After(Fresh(), cfg, run).log.dir; HasSeen(scan, AllPendings(dir), AllCommits(dir))
    ensures var m := After(Fresh(), cfg, run);
            && m.outstanding <= scan.pending.Keys
            && forall n :: n in scan.pending ==>
                 n in m.issued && scan.pending[n] == IntentEntry(n, m.issued[n].now, m.issued[n].op, m.issued[n].id, Pending)
  {
    FreshInv();
    RunKeepsInv(Fresh(), cfg, run);
    var m := After(Fresh(), cfg, run);
    SeenNumbers(scan, AllPendings(m.log.dir), AllCommits(m.log.dir));
    OutstandingIsFound(m);
  }

  lemma OutstandingIsFound(m: Machine)
    requires Inv(m)
    ensures m.outstanding <= Numbers(Found(m.log.dir))
  {
    forall n | n in m.outstanding ensures n in Numbers(Found(m.log.dir)) {
      var e :| e in AllPendings(m.log.dir) && e.seqno == n;
      assert e in Found(m.log.dir);
    }
  }

  /** What every run keeps, clean-ups of any kind included: the lines on disk are what callers asked for. */
  ghost predicate Faithful(m: Machine) {
    AllAsAsked(m.issued, AllPendings(m.log.dir)) && Ordered(m.log)
  }

  lemma {:induction false} EverythingIsAsAsked(m: Machine, cfg: Config, run: seq<Action>)
    requires Faithful(m) && m.log.dir.current.Some? && Allowed(m, cfg, run)
    ensures Faithful(After(m, cfg, run))
    decreases |run|
  {
    if run != [] {
      StepKeepsOrder(m, cfg, run[0]);
      StepKeepsAsked(m, cfg, run[0]);
      EverythingIsAsAsked(Next(m, cfg, run[0]), cfg, run[1..]);
    }
  }

  lemma AppendedAsked(issued: map<u64, Ask>, pendings: set<IntentEntry>, seqs: set<u64>, n: u64, ask: Ask)
    requires AllAsAsked(issued, pendings) && Numbers(pendings) <= seqs && forall k :: k in seqs ==> k < n
    ensures AllAsAsked(issued[n := ask], pendings + {IntentEntry(n, ask.now, ask.op, ask.id, Pending)})
    ensures AllAsAsked(issued, pendings)
  {
    assert forall e :: e in pendings ==> e.seqno in Numbers(pendings);
  }

  lemma StepKeepsAsked(m: Machine, cfg: Config, a: Action)
    requires Faithful(m) && m.log.dir.current.Some? && Enabled(m, cfg, a)
    ensures AllAsAsked(Next(m, cfg, a).issued, AllPendings(Next(m, cfg, a).log.dir)) && Next(m, cfg, a).log.dir.current.Some?
  {
    match a
    case Append(op, id, now, fault) =>
      AppendFacts(m, cfg, op, id, now, fault);
      LinesHaveSeqs(m.log.dir);
      AppendedAsked(m.issued, AllPendings(m.log.dir), AllSeqs(m.log.dir), m.log.nextSeq, Ask(op, id, now));
    case Commit(n, op, id, now, fault) => CommitFacts(m, cfg, n, op, id, now, fault);
    case Reopen => ReopenKeepsLines(m.log.dir, cfg);
    case Gc(_, _, names) => RemoveShrinks(m.log.dir, names);
  }

  lemma StepKeepsOrder(m: Machine, cfg: Config, a: Action)
    requires Ordered(m.log) && Enabled(m, cfg, a)
    ensures Ordered(Next(m, cfg, a).log)
  {
    match a
    case Append(op, id, now, fault) => WriteAddsLine(Bump(m.log), cfg, PendingEntry(m.log, op, id, now), now, fault);
    case Commit(n, op, id, now, fault) => WriteAddsLine(m.log, cfg, IntentEntry(n, now, op, id, Committed), now, fault);
    case Reopen => ReopenKeepsLines(m.log.dir, cfg);
    case Gc(_, _, names) => RemoveShrinks(m.log.dir, names);
  }

  /** Every new sequence number exceeds every one in any file still there, whatever clean-up has removed. */
  lemma {:induction false} NewSeqsAreNew(m: Machine, cfg: Config, run: seq<Action>)
    requires Ordered(m.log) && Allowed(m, cfg, run)
    ensures Ordered(After(m, cfg, run).log)
    decreases |run|
  {
    if run != [] {
      StepKeepsOrder(m, cfg, run[0]);
      NewSeqsAreNew(Next(m, cfg, run[0]), cfg, run[1..]);
    }
  }

  /** Exactly the append that would wrap the counter breaks the order of sequence numbers. */
  lemma AppendOrderedIff(l: Log, cfg: Config, op: OpType, id: string, now: nat)
    requires Ordered(l)
    ensures Ordered(AppendSpec(l, cfg, op, id, now, NoFault).log) <==> l.nextSeq + 1 < TWO_TO_THE_64
  {
    WriteAddsLine(Bump(l), cfg, PendingEntry(l, op, id, now), now, NoFault);
    var l' := AppendSpec(l, cfg, op, id, now, NoFault).log;
    assert l.nextSeq in AllSeqs(l'.dir);
  }

  /**
   * In every state carefully reached: after one more clean-up, whole or cut short, careful or not, recovery is
   * exactly what is outstanding if and only if every outstanding entry, and a mark of every committed entry
   * that stays, stands outside the removed archives.
   */
  lemma RecoveryAfterGcIff(cfg: Config, run: seq<Action>, now: nat, unreadable: set<ArchiveName>, names: set<ArchiveName>)
    requires Allowed(Fresh(), cfg, run) && Careful(Fresh(), cfg, run)
    requires Enabled(After(Fresh(), cfg, run), cfg, Gc(now, unreadable, names))
    ensures var m := After(Fresh(), cfg, run);
            Numbers(Found(Remove(m.log.dir, names))) == m.outstanding <==>
              && (forall e :: e in AllPendings(m.log.dir) && e.seqno in m.outstanding ==> PendingOutside(m.log.dir, names, e))
              && (forall e :: e in AllPendings(m.log.dir) && e.seqno !in m.outstanding && PendingOutside(m.log.dir, names, e) ==>
                    MarkedOutside(m.log.dir, names, e.seqno))
  {
    FreshInv();
    RunKeepsInv(Fresh(), cfg, run);
    FoundIsOutstandingIff(After(Fresh(), cfg, run), names);
  }

  /**
   * In every state carefully reached, a whole clean-up loses no outstanding operation if and only if none stands
   * only in archives it cannot open or finds too old.
   */
  lemma GcLosesIff(cfg: Config, run: seq<Action>, now: nat, unreadable: set<ArchiveName>)
    requires Allowed(Fresh(), cfg, run) && Careful(Fresh(), cfg, run)
    ensures var m := After(Fresh(), cfg, run);
            m.outstanding <= Numbers(Found(GcSpec(m.log.dir, cfg, now, unreadable))) <==>
            forall a, e :: a in m.log.dir.archives && (a in unreadable || TooOld(cfg, a, now))
                           && e in Pendings(m.log.dir.archives[a]) && e.seqno in m.outstanding ==>
              PendingKept(m.log.dir, cfg, now, unreadable, e)
  {
    FreshInv();
    RunKeepsInv(Fresh(), cfg, run);
    OutstandingStaysIff(After(Fresh(), cfg, run), cfg, now, unreadable);
  }

  /** One entry on disk stands for each outstanding number. */
  lemma OneForEach(m: Machine, names: set<ArchiveName>, e: IntentEntry)
    requires Inv(m) && e in AllPendings(m.log.dir)
    ensures e.seqno in Numbers(Found(Remove(m.log.dir, names))) <==> e in Found(Remove(m.log.dir, names))
    ensures e in Found(Remove(m.log.dir, names)) <==> PendingOutside(m.log.dir, names, e) && !MarkedOutside(m.log.dir, names, e.seqno)
    ensures e.seqno in m.outstanding ==> !MarkedOutside(m.log.dir, names, e.seqno)
  {
    FoundAfterRemove(m.log.dir, names, e);
    CommitsAfterRemove(m.log.dir, names, e.seqno);
    RemoveShrinks(m.log.dir, names);
  }

  lemma OutstandingStaysIff(m: Machine, cfg: Config, now: nat, unreadable: set<ArchiveName>)
    requires Inv(m)
    ensures m.outstanding <= Numbers(Found(GcSpec(m.log.dir, cfg, now, unreadable))) <==>
            forall a, e :: a in m.log.dir.archives && (a in unreadable || TooOld(cfg, a, now))
                           && e in Pendings(m.log.dir.archives[a]) && e.seqno in m.outstanding ==>
              PendingKept(m.log.dir, cfg, now, unreadable, e)
  {
    var dir, names := m.log.dir, Swept(m.log.dir, cfg, now, unreadable);
    KeptIsOutside(dir, cfg, now, unreadable);
    forall e | e in AllPendings(dir) && e.seqno in m.outstanding
      ensures e.seqno in Numbers(Found(Remove(dir, names))) <==> PendingKept(dir, cfg, now, unreadable, e)
      ensures PendingKept(dir, cfg, now, unreadable, e) ||
              exists a :: a in dir.archives && (a in unreadable || TooOld(cfg, a, now)) && e in Pendings(dir.archives[a])
    {
      OneForEach(m, names, e);
      if e !in Pendings(CurrentLines(dir)) {
        var a :| a in dir.archives && e in Pendings(dir.archives[a]);
        assert Kept(dir, cfg, now, unreadable, a) || a in unreadable || TooOld(cfg, a, now);
      }
    }
    forall a, e | a in dir.archives && e in Pendings(dir.archives[a]) ensures e in AllPendings(dir) {}
    forall n | n in m.outstanding ensures exists e :: e in AllPendings(dir) && e.seqno == n {}
  }

  lemma FoundIsOutstandingIff(m: Machine, names: set<ArchiveName>)
    requires Inv(m)
    ensures Numbers(Found(Remove(m.log.dir, names))) == m.outstanding <==>
              && (forall e :: e in AllPendings(m.log.dir) && e.seqno in m.outstanding ==> PendingOutside(m.log.dir, names, e))
              && (forall e :: e in AllPendings(m.log.dir) && e.seqno !in m.outstanding && PendingOutside(m.log.dir, names, e) ==>
                    MarkedOutside(m.log.dir, names, e.seqno))
  {
    var found := Found(Remove(m.log.dir, names));
    forall e | e in AllPendings(m.log.dir)
      ensures e.seqno in Numbers(found) <==> PendingOutside(m.log.dir, names, e) && !MarkedOutside(m.log.dir, names, e.seqno)
      ensures e.seqno in m.outstanding ==> !MarkedOutside(m.log.dir, names, e.seqno)
    {
      OneForEach(m, names, e);
    }
    RemoveShrinks(m.log.dir, names);
    forall n | n in Numbers(found) || n in m.outstanding ensures exists e :: e in AllPendings(m.log.dir) && e.seqno == n {
      if n in Numbers(found) { var e :| e in found && e.seqno == n; }
    }
  }

  // ------------------------------------------- runs whose clean-up undoes a commit or loses an operation

  lemma {:induction false} RunConcat(m: Machine, cfg: Config, a: seq<Action>, b: seq<Action>)
    requires Allowed(m, cfg, a) && Allowed(After(m, cfg, a), cfg, b)
    ensures Allowed(m, cfg, a + b) && After(m, cfg, a + b) == After(After(m, cfg, a), cfg, b)
    decreases |a|
  {
    if a == [] {
      assert a + b == b;
    } else {
      RunConcat(Next(m, cfg, a[0]), cfg, a[1..], b);
      assert (a + b)[0] == a[0] && (a + b)[1..] == a[1..] + b;
    }
  }

  ghost predicate ReachedBy(cfg: Config, run: seq<Action>, m: Machine) {
    Allowed(Fresh(), cfg, run) && After(Fresh(), cfg, run) == m
  }

  lemma OneStep(m: Machine, cfg: Config, a: Action)
    requires Enabled(m, cfg, a)
    ensures Allowed(m, cfg, [a]) && After(m, cfg, [a]) == Next(m, cfg, a)
  {
    var none: seq<Action> := [a][1..];
    assert none == [] && Allowed(Next(m, cfg, a), cfg, none);
    assert After(Next(m, cfg, a), cfg, none) == Next(m, cfg, a);
  }

  lemma OneStepFurther(cfg: Config, run: seq<Action>, m: Machine, a: Action)
    requires ReachedBy(cfg, run, m) && Enabled(m, cfg, a)
    ensures ReachedBy(cfg, run + [a], Next(m, cfg, a))
  {
    OneStep(m, cfg, a);
    RunConcat(Fresh(), cfg, run, [a]);
  }

  /** Every line takes room. */
  ghost predicate LinesHaveLength(cfg: Config) {
    forall e :: cfg.length(e) > 0
  }

  /** The run cleans nothing up and commits no number twice, and none from `n` on. */
  ghost predicate Plain(run: seq<Action>, n: nat) {
    && NoGc(run)
    && (forall i :: 0 <= i < |run| && run[i].Commit? ==> run[i].seqno < n)
    && (forall i, j :: 0 <= i < j < |run| && run[i].Commit? && run[j].Commit? ==> run[i].seqno != run[j].seqno)
  }

  lemma PlainSnoc(run: seq<Action>, n: nat, a: Action)
    requires Plain(run, n) && !a.Gc?
    ensures !a.Commit? ==> Plain(run + [a], n)
    ensures a.Commit? && a.seqno == n ==> Plain(run + [a], n + 1)
  {
  }

  /** Operations were appended and none committed. */
  ghost predicate Burst(cfg: Config, run: seq<Action>, m: Machine) {
    ReachedBy(cfg, run, m) && Plain(run, 1) && Bursting(FactsOf(m)) && m.log.dir.current.Some?
  }

  ghost predicate Bursting(f: Facts) {
    && f.commits == {} && f.outstanding == Numbers(f.pendings) && f.nextSeq > 0
    && forall n: u64 :: 1 <= n < f.nextSeq ==> n in f.issued && n in f.outstanding
  }

  lemma StillBursting(f: Facts, ask: Ask)
    requires Bursting(f) && f.nextSeq + 1 < TWO_TO_THE_64
    ensures Bursting(Appended(f, ask))
  {
    OneNumberMore(f.pendings, IntentEntry(f.nextSeq, ask.now, ask.op, ask.id, Pending));
  }

  lemma BurstStep(cfg: Config, run: seq<Action>, m: Machine, op: OpType, id: string, now: nat) returns (a: Action, m': Machine)
    requires Burst(cfg, run, m) && m.log.nextSeq + 1 < TWO_TO_THE_64 && LinesHaveLength(cfg)
    ensures Burst(cfg, run + [a], m') && m'.log.nextSeq == m.log.nextSeq + 1
    ensures m'.log.fileSize > m.log.fileSize || (m'.log.fileSize == 0 && CurrentLines(m'.log.dir) == [])
    ensures m'.log.fileSize < cfg.maxSize || m'.log.fileSize == 0
  {
    a := Append(op, id, now, NoFault);
    m' := Next(m, cfg, a);
    OneStepFurther(cfg, run, m, a);
    PlainSnoc(run, 1, a);
    AppendFacts(m, cfg, op, id, now, NoFault);
    AppendSizes(m, cfg, op, id, now);
    StillBursting(FactsOf(m), Ask(op, id, now));
  }

  lemma AppendSizes(m: Machine, cfg: Config, op: OpType, id: string, now: nat)
    requires m.log.nextSeq + 1 < TWO_TO_THE_64 && LinesHaveLength(cfg)
    ensures var log := Next(m, cfg, Append(op, id, now, NoFault)).log;
            && (log.fileSize > m.log.fileSize || (log.fileSize == 0 && CurrentLines(log.dir) == []))
            && (log.fileSize < cfg.maxSize || log.fileSize == 0)
  {
  }

  lemma OneNumberMore(entries: set<IntentEntry>, e: IntentEntry)
    ensures Numbers(entries + {e}) == Numbers(entries) + {e.seqno}
  {
  }

  lemma FirstOfBurst(cfg: Config, run: seq<Action>, m: Machine) returns (e: IntentEntry)
    requires Burst(cfg, run, m) && m.log.nextSeq > 1
    ensures e.seqno == 1 && e in AllPendings(m.log.dir) && e in Found(m.log.dir) && e.seqno in m.outstanding && AsAsked(m.issued, e)
  {
    assert (1 as u64) in m.outstanding;
    e :| e in AllPendings(m.log.dir) && e.seqno == 1;
    FreshInv();
    EverythingIsAsAsked(Fresh(), cfg, run);
  }

  /** At least this many operations, and then as many as it takes for the file to rotate. */
  lemma ManyAppends(cfg: Config, run: seq<Action>, m: Machine, k: nat, op: OpType, id: string, now: nat)
    returns (run': seq<Action>, m': Machine)
    requires Burst(cfg, run, m) && LinesHaveLength(cfg) && (m.log.fileSize < cfg.maxSize || m.log.fileSize == 0)
    requires m.log.nextSeq + k + (if k > 0 then cfg.maxSize else cfg.maxSize - m.log.fileSize) + 2 < TWO_TO_THE_64
    ensures Burst(cfg, run', m') && m'.log.nextSeq > m.log.nextSeq + k
    ensures CurrentLines(m'.log.dir) == [] && m'.log.fileSize == 0
    decreases k, cfg.maxSize - m.log.fileSize
  {
    var a, m1 := BurstStep(cfg, run, m, op, id, now);
    if k > 0 {
      run', m' := ManyAppends(cfg, run + [a], m1, k - 1, op, id, now);
    } else if CurrentLines(m1.log.dir) == [] && m1.log.fileSize == 0 {
      run', m' := run + [a], m1;
    } else {
      run', m' := ManyAppends(cfg, run + [a], m1, 0, op, id, now);
    }
  }

  lemma FreshBurst(cfg: Config)
    ensures Burst(cfg, [], Fresh())
  {
    FreshInv();
    assert CurrentLines(Fresh().log.dir) == [];
  }

  /** The current file, with only marks added, has become an archive; the number n is among them. */
  ghost predicate Marking(m: Machine, m': Machine, name: ArchiveName, lines: File, n: u64) {
    && m'.log.dir == Dir(m.log.dir.archives[name := lines], Some([])) && name !in m.log.dir.archives
    && Pendings(lines) == {} && n in Commits(lines)
    && m'.issued == m.issued && m'.outstanding <= m.outstanding - {n}
  }

  /** Committing one number after the other, each once, until the file rotates. */
  lemma CommitsUntilFull(cfg: Config, run: seq<Action>, m: Machine, first: u64, n: u64, op: OpType, id: string, now: nat)
    returns (run': seq<Action>, m': Machine, name: ArchiveName, lines: File)
    requires ReachedBy(cfg, run, m) && Plain(run, n) && LinesHaveLength(cfg)
    requires m.log.nextSeq > cfg.maxSize + 1 && 1 <= n <= m.log.fileSize + 1 && (m.log.fileSize < cfg.maxSize || m.log.fileSize == 0)
    requires forall k: u64 :: 1 <= k < m.log.nextSeq ==> k in m.issued
    requires Pendings(CurrentLines(m.log.dir)) == {}
    requires first == n || (first in Commits(CurrentLines(m.log.dir)) && first !in m.outstanding)
    ensures ReachedBy(cfg, run', m') && Marking(m, m', name, lines, first)
    ensures exists k :: Plain(run', k)
    decreases cfg.maxSize - m.log.fileSize
  {
    var a := Commit(n, op, id, now, NoFault);
    var e := IntentEntry(n, now, op, id, Committed);
    var m1 := Next(m, cfg, a);
    OneStepFurther(cfg, run, m, a);
    PlainSnoc(run, n, a);
    lines := CurrentLines(m.log.dir) + [Parsed(e)];
    FileConcat(CurrentLines(m.log.dir), [Parsed(e)]);
    OneLine(e);
    if m.log.fileSize + cfg.length(e) >= cfg.maxSize {
      name := ArchiveName(now, FreeRot(m.log.dir.archives.Keys, now, m.log.rotateCounter));
      run', m' := run + [a], m1;
      assert Plain(run', n as nat + 1);
    } else {
      run', m', name, lines := CommitsUntilFull(cfg, run + [a], m1, first, n + 1, op, id, now);
    }
  }

  lemma MarksGone(m: Machine, m': Machine, name: ArchiveName, lines: File, n: u64, names: set<ArchiveName>)
    requires Marking(m, m', name, lines, n) && AllCommits(m.log.dir) == {} && name in names
    ensures !MarkedOutside(m'.log.dir, names, n)
  {
    var dir, before := m'.log.dir, m.log.dir;
    assert Commits([]) == {};
    forall a | a in dir.archives && a !in names ensures n !in Commits(dir.archives[a]) {
      assert a in before.archives && dir.archives[a] == before.archives[a];
      assert n !in AllCommits(before);
    }
  }

  lemma PendingStays(m: Machine, m': Machine, cfg: Config, now: nat, name: ArchiveName, lines: File, e: IntentEntry)
    requires Marking(m, m', name, lines, e.seqno) && CurrentLines(m.log.dir) == []
    requires e in AllPendings(m.log.dir) && cfg.maxAge == 0
    ensures PendingOutside(m'.log.dir, Swept(m'.log.dir, cfg, now, {}), e)
  {
    assert Pendings([]) == {};
    var a :| a in m.log.dir.archives && e in Pendings(m.log.dir.archives[a]);
    assert m'.log.dir.archives[a] == m.log.dir.archives[a];
  }

  /** When the marks of n all stand in an archive of their own, a clean-up that opens everything leaves none. */
  lemma LoneMarksVanish(m: Machine, m': Machine, cfg: Config, now: nat, name: ArchiveName, lines: File, e: IntentEntry)
    requires Marking(m, m', name, lines, e.seqno) && CurrentLines(m.log.dir) == [] && AllCommits(m.log.dir) == {}
    requires e in AllPendings(m.log.dir) && cfg.maxAge == 0
    ensures e !in Found(m'.log.dir) && e in Found(GcSpec(m'.log.dir, cfg, now, {}))
  {
    var names := Swept(m'.log.dir, cfg, now, {});
    assert m'.log.dir.archives[name] == lines;
    MarksGone(m, m', name, lines, e.seqno, names);
    PendingStays(m, m', cfg, now, name, lines, e);
    FoundAfterRemove(m'.log.dir, names, e);
    assert e.seqno in Commits(m'.log.dir.archives[name]);
  }

  /**
   * Clean-up can bring a committed operation back. Append a burst of operations until a file rotates, then
   * commit them one by one, each once, until the next file rotates: that file holds marks alone, and the
   * clean-up that follows removes it.
   */
  lemma GcCanBringBack(cfg: Config, op: OpType, id: string, now: nat)
    returns (run: seq<Action>, m: Machine, m': Machine, e: IntentEntry)
    requires cfg.maxAge == 0 && LinesHaveLength(cfg) && 2 * cfg.maxSize + 4 < TWO_TO_THE_64
    ensures ReachedBy(cfg, run, m) && exists k :: Plain(run, k)
    ensures m' == m.(log := m.log.(dir := GcSpec(m.log.dir, cfg, now, {})))
    ensures ReachedBy(cfg, run + [Gc(now, {}, Swept(m.log.dir, cfg, now, {}))], m')
    ensures AsAsked(m.issued, e) && e.seqno !in m.outstanding && e !in Found(m.log.dir) && e in Found(m'.log.dir)
  {
    FreshBurst(cfg);
    var run0, m0 := ManyAppends(cfg, [], Fresh(), cfg.maxSize, op, id, now);
    assert Pendings([]) == {};
    e := FirstOfBurst(cfg, run0, m0);
    var name, lines;
    run, m, name, lines := CommitsUntilFull(cfg, run0, m0, 1, 1, op, id, now);
    LoneMarksVanish(m0, m, cfg, now, name, lines, e);
    var gc := Gc(now, {}, Swept(m.log.dir, cfg, now, {}));
    OneStepFurther(cfg, run, m, gc);
    m' := Next(m, cfg, gc);
  }

  /**
   * Clean-up can lose an operation that was never committed, whatever the age limit: in a run that only
   * appends until a file rotates, the archive cannot be opened when the clean-up comes, and it is removed.
   * The next opening gives the same number out again.
   */
  lemma GcCanLose(cfg: Config, op: OpType, id: string, now: nat)
    returns (run: seq<Action>, m: Machine, unreadable: set<ArchiveName>, m': Machine, e: IntentEntry)
    requires LinesHaveLength(cfg) && cfg.maxSize + 4 < TWO_TO_THE_64
    ensures ReachedBy(cfg, run, m) && Plain(run, 1)
    ensures m' == m.(log := m.log.(dir := GcSpec(m.log.dir, cfg, now, unreadable)))
    ensures ReachedBy(cfg, run + [Gc(now, unreadable, Swept(m.log.dir, cfg, now, unreadable))], m')
    ensures e.seqno in m.outstanding && e in Found(m.log.dir) && AsAsked(m.issued, e)
    ensures e.seqno in m'.outstanding && e !in AllPendings(m'.log.dir)
    ensures OpenSpec(m'.log.dir, cfg).Some? && OpenSpec(m'.log.dir, cfg).value.nextSeq == e.seqno
  {
    FreshBurst(cfg);
    run, m := ManyAppends(cfg, [], Fresh(), 0, op, id, now);
    unreadable := m.log.dir.archives.Keys;
    e := FirstOfBurst(cfg, run, m);
    var gc := Gc(now, unreadable, Swept(m.log.dir, cfg, now, unreadable));
    OneStepFurther(cfg, run, m, gc);
    m' := Next(m, cfg, gc);
    NothingLeft(m'.log.dir);
  }

  lemma NothingLeft(dir: Dir)
    requires dir.archives.Keys == {} && CurrentLines(dir) == []
    ensures AllPendings(dir) == {} && AllCommits(dir) == {} && AllSeqs(dir) == {} && Max(AllSeqs(dir)) == 0
  {
  }

  // ------------------------------------------------------------------------------ the program

  function PendingCount(file: File): nat {
    if file == [] then 0
    else PendingCount(file[..|file| - 1]) + if IsPendingLine(file[|file| - 1]) then 1 else 0
  }

  predicate IsPendingLine(l: Line) {
    l.Parsed? && l.entry.status.Pending?
  }

  lemma {:induction false} PendingCountZero(file: File)
    ensures PendingCount(file) == 0 <==> Pendings(file) == {}
  {
    if file != [] {
      var init, last := file[..|file| - 1], file[|file| - 1];
      PendingCountZero(init);
      assert file == init + [last];
      FileConcat(init, [last]);
      if IsPendingLine(last) { OneLine(last.entry); assert last.entry in Pendings(file); }
      else { assert Pendings([last]) == {}; }
    }
  }

  /** Each pending line counts once. */
  lemma {:induction false} PendingsCountUp(a: File, b: File)
    ensures PendingCount(a + b) == PendingCount(a) + PendingCount(b)
    ensures forall e :: PendingCount([Parsed(e)]) == if e.status == Pending then 1 else 0
    ensures forall n :: PendingCount([Noise(n)]) == 0
    decreases |b|
  {
    forall e ensures PendingCount([Parsed(e)]) == if e.status == Pending then 1 else 0 { assert [Parsed(e)][..0] == []; }
    forall n ensures PendingCount([Noise(n)]) == 0 { assert [Noise(n)][..0] == []; }
    if b == [] {
      assert a + b == a;
    } else {
      var n := |b| - 1;
      assert (a + b)[..|a| + n] == a + b[..n] && (a + b)[|a| + n] == b[n];
      PendingsCountUp(a, b[..n]);
    }
  }

  lemma MaxIs(s: set<u64>, m: u64)
    requires forall n :: n in s ==> n <= m
    requires m == 0 || m in s
    ensures m == Max(s)
  {
  }

  lemma MaxOfUnion(a: set<u64>, b: set<u64>, c: set<u64>)
    requires c == a + b
    ensures Max(c) == if Max(b) > Max(a) then Max(b) else Max(a)
  {
    MaxIs(c, if Max(b) > Max(a) then Max(b) else Max(a));
  }

  predicate Before(a: ArchiveName, b: ArchiveName) {
    a.ts < b.ts || (a.ts == b.ts && a.rot < b.rot)
  }

  /** The archives from the oldest to the newest, by time and then by rotation number. */
  ghost predicate ByAge(dir: Dir, order: seq<ArchiveName>) {
    && (forall i, j :: 0 <= i < j < |order| ==>
          order[i].ts <= order[j].ts && (order[i].ts == order[j].ts ==> order[i].rot < order[j].rot))
    && (forall n :: n in order <==> n in dir.archives)
  }

  function Joined(dir: Dir, order: seq<ArchiveName>): File
    requires forall n :: n in order ==> n in dir.archives
  {
    if order == [] then [] else Joined(dir, order[..|order| - 1]) + dir.archives[order[|order| - 1]]
  }

  /** What scanning every line on disk from the oldest to the newest leaves. */
  ghost predicate ScannedByAge(dir: Dir, s: Scan) {
    exists order :: ByAge(dir, order) && s == ScanLines(Scan(map[], {}), Joined(dir, order) + CurrentLines(dir))
  }

  ghost predicate LineIn(dir: Dir, order: seq<ArchiveName>, line: Line) {
    exists n :: n in order && n in dir.archives && line in dir.archives[n]
  }

  lemma {:induction false} JoinedHas(dir: Dir, order: seq<ArchiveName>, line: Line)
    requires forall n :: n in order ==> n in dir.archives
    ensures line in Joined(dir, order) <==> LineIn(dir, order, line)
  {
    if order != [] {
      var k := |order| - 1;
      assert order == order[..k] + [order[k]];
      JoinedHas(dir, order[..k], line);
    }
  }

  /** Scanning by age sees every line on disk. */
  lemma SeesEverything(dir: Dir, order: seq<ArchiveName>)
    requires ByAge(dir, order)
    ensures HasSeen(ScanLines(Scan(map[], {}), Joined(dir, order) + CurrentLines(dir)), AllPendings(dir), AllCommits(dir))
  {
    var lines := Joined(dir, order);
    forall line ensures line in lines <==> LineIn(dir, order, line) { JoinedHas(dir, order, line); }
    FileConcat(lines, CurrentLines(dir));
    ScanLinesSees(Scan(map[], {}), lines + CurrentLines(dir), {}, {});
    assert {} + Pendings(lines + CurrentLines(dir)) == AllPendings(dir) by { JoinedPendings(dir, order); }
    assert {} + Commits(lines + CurrentLines(dir)) == AllCommits(dir) by { JoinedCommits(dir, order); }
  }

  lemma JoinedPendings(dir: Dir, order: seq<ArchiveName>)
    requires ByAge(dir, order)
    ensures Pendings(Joined(dir, order)) == set n, e | n in dir.archives && e in Pendings(dir.archives[n]) :: e
  {
    forall e ensures e in Pendings(Joined(dir, order)) <==> exists n :: n in dir.archives && e in Pendings(dir.archives[n]) {
      JoinedHas(dir, order, Parsed(e));
    }
  }

  lemma JoinedCommits(dir: Dir, order: seq<ArchiveName>)
    requires ByAge(dir, order)
    ensures Commits(Joined(dir, order)) == set n, c | n in dir.archives && c in Commits(dir.archives[n]) :: c
  {
    forall line ensures line in Joined(dir, order) <==> LineIn(dir, order, line) { JoinedHas(dir, order, line); }
    forall c ensures c in Commits(Joined(dir, order)) <==> exists n :: n in dir.archives && c in Commits(dir.archives[n]) {
      if c in Commits(Joined(dir, order)) {
        var l :| l in Joined(dir, order) && l.Parsed? && l.entry.status.Committed? && l.entry.seqno == c;
        var n :| n in order && n in dir.archives && l in dir.archives[n];
        assert c in Commits(dir.archives[n]);
      }
      if n :| n in dir.archives && c in Commits(dir.archives[n]) {
        var l :| l in dir.archives[n] && l.Parsed? && l.entry.status.Committed? && l.entry.seqno == c;
        assert LineIn(dir, order, l);
      }
    }
  }

  /** The archives scanned so far are the oldest ones. */
  ghost predicate OldestFirst(dir: Dir, order: seq<ArchiveName>, left: set<ArchiveName>) {
    && (forall i, j :: 0 <= i < j < |order| ==> Before(order[i], order[j]))
    && (forall n :: n in order <==> n in dir.archives && n !in left)
    && (forall i, n :: 0 <= i < |order| && n in left ==> Before(order[i], n))
  }

  lemma NextByAge(dir: Dir, order: seq<ArchiveName>, left: set<ArchiveName>, name: ArchiveName)
    requires left <= dir.archives.Keys && OldestFirst(dir, order, left)
    requires name in left && forall n :: n in left ==> n == name || Before(name, n)
    ensures OldestFirst(dir, order + [name], left - {name})
    ensures Joined(dir, order + [name]) == Joined(dir, order) + dir.archives[name]
  {
    assert (order + [name])[..|order|] == order;
  }

  ghost predicate Ascending(entries: seq<IntentEntry>) {
    forall i, j :: 0 <= i < j < |entries| ==> entries[i].seqno < entries[j].seqno
  }

  ghost function SeqsIn(dir: Dir, names: set<ArchiveName>): set<u64> {
    set n, c | n in names && n in dir.archives && c in Seqs(dir.archives[n]) :: c
  }

  lemma OneMoreArchive(dir: Dir, names: set<ArchiveName>, n: ArchiveName)
    requires n in dir.archives
    ensures SeqsIn(dir, names + {n}) == SeqsIn(dir, names) + Seqs(dir.archives[n])
  {
  }

  /** The largest sequence number of the current file and some archives. */
  ghost function MaxSeen(dir: Dir, names: set<ArchiveName>): u64 {
    Max(SeqsIn(dir, names) + Seqs(CurrentLines(dir)))
  }

  lemma MaxOfNoneAndAll(dir: Dir)
    ensures MaxSeen(dir, dir.archives.Keys - dir.archives.Keys) == Max(Seqs(CurrentLines(dir)))
    ensures MaxSeen(dir, dir.archives.Keys - {}) == Max(AllSeqs(dir))
  {
    assert dir.archives.Keys - dir.archives.Keys == {} && dir.archives.Keys - {} == dir.archives.Keys;
    assert SeqsIn(dir, {}) + Seqs(CurrentLines(dir)) == Seqs(CurrentLines(dir));
    assert SeqsIn(dir, dir.archives.Keys) + Seqs(CurrentLines(dir)) == AllSeqs(dir);
  }

  /** One archive less is left. */
  lemma MaxWithArchive(dir: Dir, left: set<ArchiveName>, n: ArchiveName)
    requires n in left && left <= dir.archives.Keys
    ensures var a, b := MaxSeen(dir, dir.archives.Keys - left), Max(Seqs(dir.archives[n]));
            MaxSeen(dir, dir.archives.Keys - (left - {n})) == if b > a then b else a
  {
    var names := dir.archives.Keys - left;
    assert dir.archives.Keys - (left - {n}) == names + {n};
    OneMoreArchive(dir, names, n);
    MaxOfUnion(SeqsIn(dir, names) + Seqs(CurrentLines(dir)), Seqs(dir.archives[n]),
               SeqsIn(dir, names + {n}) + Seqs(CurrentLines(dir)));
  }

  lemma CountWithout(archives: map<ArchiveName, File>, gone: set<ArchiveName>)
    requires gone <= archives.Keys
    ensures |archives - gone| == |archives| - |gone|
  {
    assert archives.Keys == (archives - gone).Keys + gone;
  }

  /** Of the archives not left to look at, exactly the removable ones are gone, and none of them failed. */
  ghost predicate SweptSoFar(dir: Dir, cfg: Config, now: nat, unreadable: set<ArchiveName>, fails: ArchiveName -> bool,
                             left: set<ArchiveName>, gone: set<ArchiveName>) {
    && gone <= dir.archives.Keys - left
    && forall n :: n in dir.archives && n !in left ==> (n in gone <==> Removable(dir, cfg, now, unreadable, n)) && (n in gone ==> !fails(n))
  }

  lemma RemoveMore(dir: Dir, gone: set<ArchiveName>, name: ArchiveName)
    ensures Remove(dir, gone).(archives := Remove(dir, gone).archives - {name}) == Remove(dir, gone + {name})
  {
    assert dir.archives - gone - {name} == dir.archives - (gone + {name});
  }

  lemma SweptNext(dir: Dir, cfg: Config, now: nat, unreadable: set<ArchiveName>, fails: ArchiveName -> bool, left: set<ArchiveName>,
                  gone: set<ArchiveName>, name: ArchiveName)
    requires SweptSoFar(dir, cfg, now, unreadable, fails, left, gone) && name in left && left <= dir.archives.Keys
    ensures !Removable(dir, cfg, now, unreadable, name) ==> SweptSoFar(dir, cfg, now, unreadable, fails, left - {name}, gone)
    ensures Removable(dir, cfg, now, unreadable, name) && !fails(name) ==> SweptSoFar(dir, cfg, now, unreadable, fails, left - {name}, gone + {name})
    ensures PartlyCleaned(dir, Remove(dir, gone), cfg, now, unreadable)
  {
    assert forall n :: n in gone ==> n in dir.archives && n !in left;
  }

  lemma SweptAll(dir: Dir, cfg: Config, now: nat, unreadable: set<ArchiveName>, fails: ArchiveName -> bool,
                 gone: set<ArchiveName>)
    requires SweptSoFar(dir, cfg, now, unreadable, fails, {}, gone)
    ensures Remove(dir, gone) == GcSpec(dir, cfg, now, unreadable) && PartlyCleaned(dir, Remove(dir, gone), cfg, now, unreadable)
    ensures forall n :: Removable(dir, cfg, now, unreadable, n) ==> !fails(n)
  {
    assert gone == Swept(dir, cfg, now, unreadable);
  }

  /** Only archives a clean-up may remove are gone. */
  ghost predicate PartlyCleaned(dir: Dir, dir': Dir, cfg: Config, now: nat, unreadable: set<ArchiveName>) {
    exists gone :: dir' == Remove(dir, gone) && forall n :: n in gone ==> Removable(dir, cfg, now, unreadable, n)
  }

  /** `result` lists the entries taken out so far, all of them below what is left. */
  ghost predicate Lists(pending: map<u64, IntentEntry>, result: seq<IntentEntry>, left: set<u64>) {
    && (forall i :: 0 <= i < |result| ==> result[i].seqno in pending && pending[result[i].seqno] == result[i])
    && (forall n :: n in pending && n !in left ==> pending[n] in result)
    && (forall i, n :: 0 <= i < |result| && n in left ==> result[i].seqno < n)
  }

  lemma ListsNext(pending: map<u64, IntentEntry>, result: seq<IntentEntry>, left: set<u64>, n: u64)
    requires forall k :: k in pending ==> pending[k].seqno == k
    requires left <= pending.Keys && Ascending(result) && Lists(pending, result, left)
    requires n in left && forall k :: k in left ==> n <= k
    ensures Ascending(result + [pending[n]]) && Lists(pending, result + [pending[n]], left - {n})
  {
    var result' := result + [pending[n]];
    assert result'[|result|] == pending[n];
    assert forall e :: e in result ==> e in result';
  }

  class IntentLog {
    const cfg: Config
    var dir: Dir
    var fileSize: nat
    var nextSeq: u64
    var rotateCounter: nat

    ghost function State(): Log
      reads this
    {
      Log(dir, fileSize, nextSeq, rotateCounter)
    }

    constructor (cfg: Config, dir: Dir, fileSize: nat, nextSeq: u64)
      ensures this.cfg == cfg && State() == Log(dir, fileSize, nextSeq, 0)
    {
      this.cfg := cfg;
      this.dir := dir;
      this.fileSize := fileSize;
      this.nextSeq := nextSeq;
      this.rotateCounter := 0;
    }

    static method Open(dir: Dir, cfg: Config, unreadable: set<ArchiveName>, currentOpens: bool) returns (r: Option<IntentLog>)
      ensures r.Some? <==> OpenSpec(dir, cfg).Some? && unreadable !! dir.archives.Keys && currentOpens
      ensures r.Some? ==> fresh(r.value) && r.value.cfg == cfg && r.value.State() == OpenSpec(dir, cfg).value
    {
      if !currentOpens {
        return None;
      }
      var m := ScanDirectoryMaxSeq(dir, unreadable);
      if m.None? || m.value + 1 >= TWO_TO_THE_64 {
        return None;
      }
      var log := new IntentLog(cfg, dir.(current := Some(CurrentLines(dir))), FileLength(cfg, CurrentLines(dir)), m.value + 1);
      return Some(log);
    }

    /** The largest number of any file, unless one cannot be opened. */
    static method ScanDirectoryMaxSeq(dir: Dir, unreadable: set<ArchiveName>) returns (r: Option<u64>)
      ensures r == if unreadable !! dir.archives.Keys then Some(Max(AllSeqs(dir))) else None
    {
      var m := ScanMaxSeq(CurrentLines(dir));
      var left := dir.archives.Keys;
      MaxOfNoneAndAll(dir);
      while left != {}
        invariant left <= dir.archives.Keys
        invariant forall n :: n in dir.archives && n in unreadable ==> n in left
        invariant m == MaxSeen(dir, dir.archives.Keys - left)
        decreases |left|
      {
        var name :| name in left;
        if name in unreadable { return None; }
        var k := ScanMaxSeq(dir.archives[name]);
        MaxWithArchive(dir, left, name);
        m := if k > m then k else m;
        left := left - {name};
      }
      return Some(m);
    }

    static method ScanMaxSeq(file: File) returns (m: u64)
      ensures m == Max(Seqs(file))
    {
      m := 0;
      for i := 0 to |file|
        invariant forall n :: n in Seqs(file[..i]) ==> n <= m
        invariant m == 0 || m in Seqs(file[..i])
      {
        assert file[..i + 1] == file[..i] + [file[i]];
        FileConcat(file[..i], [file[i]]);
        if file[i].Parsed? {
          assert file[i] in [file[i]];
          assert Seqs([file[i]]) == {file[i].entry.seqno};
          if file[i].entry.seqno > m {
            m := file[i].entry.seqno;
          }
        } else {
          assert Seqs([file[i]]) == {};
        }
      }
      assert file[..|file|] == file;
      MaxIs(Seqs(file), m);
    }

    method AppendPending(op: OpType, id: string, now: nat, fault: Fault) returns (r: Option<u64>)
      modifies this
      ensures var w := AppendSpec(old(State()), cfg, op, id, now, fault);
              State() == w.log && r == if w.ok then Some(old(nextSeq)) else None
    {
      var seqno: u64 := nextSeq;
      nextSeq := if seqno + 1 == TWO_TO_THE_64 then 0 else seqno + 1;
      var ok := WriteEntry(IntentEntry(seqno, now, op, id, Pending), now, fault);
      return if ok then Some(seqno) else None;
    }

    method MarkCommitted(seqno: u64, op: OpType, id: string, now: nat, fault: Fault) returns (ok: bool)
      modifies this
      ensures var w := CommitSpec(old(State()), cfg, seqno, op, id, now, fault);
              State() == w.log && ok == w.ok
    {
      ok := WriteEntry(IntentEntry(seqno, now, op, id, Committed), now, fault);
    }

    method WriteEntry(e: IntentEntry, now: nat, fault: Fault) returns (ok: bool)
      modifies this
      ensures var w := WriteSpec(old(State()), cfg, e, now, fault);
              State() == w.log && ok == w.ok
    {
      if fault == WriteFault {
        return false;
      }
      dir := dir.(current := Some(CurrentLines(dir) + [Parsed(e)]));
      if fault == FlushFault {
        return false;
      }
      fileSize := fileSize + cfg.length(e);
      ok := MaybeRotate(now, fault);
    }

    method MaybeRotate(now: nat, fault: Fault) returns (ok: bool)
      requires fault == NoFault || fault == RotateFault
      modifies this
      ensures old(fileSize) < cfg.maxSize ==> State() == old(State()) && ok
      ensures old(fileSize) >= cfg.maxSize && fault == NoFault ==> State() == RotateSpec(old(State()), cfg, now) && ok
      ensures old(fileSize) >= cfg.maxSize && fault == RotateFault ==>
                !ok && State() == old(State()).(rotateCounter := FreeRot(old(dir).archives.Keys, now, old(rotateCounter)) + 1)
    {
      if fileSize < cfg.maxSize {
        return true;
      }
      var rot := rotateCounter;
      rotateCounter := rotateCounter + 1;
      while ArchiveName(now, rot) in dir.archives
        invariant dir == old(dir) && fileSize == old(fileSize) && nextSeq == old(nextSeq)
        invariant rotateCounter == rot + 1
        invariant FreeRot(dir.archives.Keys, now, rot) == FreeRot(dir.archives.Keys, now, old(rotateCounter))
        decreases FreeRot(dir.archives.Keys, now, rot) - rot
      {
        rot := rotateCounter;
        rotateCounter := rotateCounter + 1;
      }
      if fault == RotateFault {
        return false;
      }
      dir := Dir(dir.archives[ArchiveName(now, rot) := CurrentLines(dir)], Some([]));
      fileSize := 0;
      return true;
    }

    /**
     * One entry per unresolved sequence number, in ascending order, whatever order the archives come in. A file
     * that cannot be opened fails the whole scan.
     */
    method ScanPending(unreadable: set<ArchiveName>, currentOpens: bool) returns (r: Option<seq<IntentEntry>>)
      ensures r.Some? <==> unreadable !! dir.archives.Keys && (dir.current.Some? ==> currentOpens)
      ensures r.Some? ==>
                && (forall i, j :: 0 <= i < j < |r.value| ==> r.value[i].seqno < r.value[j].seqno)
                && exists s :: HasSeen(s, AllPendings(dir), AllCommits(dir)) && ScannedByAge(dir, s) && (set e | e in r.value) == s.pending.Values
      ensures r.Some? && OneEntryPerSeq(AllPendings(dir)) ==> (set e | e in r.value) == Found(dir)
    {
      var s, order := ScanArchives(dir, unreadable);
      if s.None? || (dir.current.Some? && !currentOpens) { return None; }
      ScanConcat(Scan(map[], {}), Joined(dir, order), CurrentLines(dir));
      var whole := ScanFile(s.value, CurrentLines(dir));
      SeesEverything(dir, order);
      if OneEntryPerSeq(AllPendings(dir)) {
        SeenIsUnresolved(whole, AllPendings(dir), AllCommits(dir));
      }
      var result := InOrder(whole.pending);
      return Some(result);
    }

    /** The archives from the oldest to the newest, as long as each of them opens. */
    static method ScanArchives(dir: Dir, unreadable: set<ArchiveName>) returns (r: Option<Scan>, ghost order: seq<ArchiveName>)
      ensures r.Some? <==> unreadable !! dir.archives.Keys
      ensures r.Some? ==> ByAge(dir, order) && r.value == ScanLines(Scan(map[], {}), Joined(dir, order))
    {
      var s := Scan(map[], {});
      var left := dir.archives.Keys;
      order := [];
      while left != {}
        invariant left <= dir.archives.Keys && unreadable !! dir.archives.Keys - left
        invariant OldestFirst(dir, order, left) && s == ScanLines(Scan(map[], {}), Joined(dir, order))
        decreases |left|
      {
        var name := Oldest(left);
        if name in unreadable { return None, order; }
        NextByAge(dir, order, left, name);
        ScanConcat(Scan(map[], {}), Joined(dir, order), dir.archives[name]);
        s := ScanFile(s, dir.archives[name]);
        order := order + [name];
        left := left - {name};
      }
      return Some(s), order;
    }

    static method ScanFile(s0: Scan, file: File) returns (s: Scan)
      ensures s == ScanLines(s0, file)
    {
      s := s0;
      for i := 0 to |file|
        invariant ScanLines(s, file[i..]) == ScanLines(s0, file)
      {
        assert file[i..][0] == file[i] && file[i..][1..] == file[i + 1..];
        s := ScanLine(s, file[i]);
      }
    }

    static method Oldest(names: set<ArchiveName>) returns (first: ArchiveName)
      requires names != {}
      ensures first in names && forall n :: n in names ==> n == first || Before(first, n)
    {
      first :| first in names;
      var left := names - {first};
      while left != {}
        invariant left <= names && first in names && first !in left
        invariant forall n :: n in names && n !in left ==> n == first || Before(first, n)
        decreases |left|
      {
        var n :| n in left;
        if Before(n, first) {
          first := n;
        }
        left := left - {n};
      }
    }

    static method InOrder(pending: map<u64, IntentEntry>) returns (result: seq<IntentEntry>)
      requires forall n :: n in pending ==> pending[n].seqno == n
      ensures Ascending(result) && (set e | e in result) == pending.Values
    {
      result := [];
      var left := pending.Keys;
      while left != {}
        invariant left <= pending.Keys && Ascending(result)
        invariant Lists(pending, result, left)
        decreases |left|
      {
        var n := Smallest(left);
        ListsNext(pending, result, left, n);
        result := result + [pending[n]];
        left := left - {n};
      }
      forall e ensures e in result <==> e in pending.Values {
        if e in pending.Values { assert e.seqno in pending; }
      }
    }

    static method Smallest(numbers: set<u64>) returns (m: u64)
      requires numbers != {}
      ensures m in numbers && forall n :: n in numbers ==> m <= n
    {
      m :| m in numbers;
      var left := numbers - {m};
      while left != {}
        invariant left <= numbers && m in numbers
        invariant forall n :: n in numbers && n !in left ==> m <= n
        decreases |left|
      {
        var n :| n in left;
        if n < m {
          m := n;
        }
        left := left - {n};
      }
    }

    /**
     * `unreadable` holds the archives that cannot be opened, `fails` says which cannot be deleted: the first of
     * these to come up stops the clean-up.
     */
    method GcOldLogs(now: nat, unreadable: set<ArchiveName>, fails: ArchiveName -> bool) returns (removed: Option<nat>)
      modifies this`dir
      ensures removed.Some? <==> forall n :: Removable(old(dir), cfg, now, unreadable, n) ==> !fails(n)
      ensures removed.Some? ==> dir == GcSpec(old(dir), cfg, now, unreadable) && removed.value == |old(dir).archives| - |dir.archives|
      ensures PartlyCleaned(old(dir), dir, cfg, now, unreadable)
    {
      var before := dir;
      var left := before.archives.Keys;
      var gone: set<ArchiveName> := {};
      while left != {}
        invariant left <= before.archives.Keys && dir == Remove(before, gone)
        invariant SweptSoFar(before, cfg, now, unreadable, fails, left, gone)
        decreases |left|
      {
        var name :| name in left;
        var removable := MayRemove(before, cfg, name, now, unreadable);
        SweptNext(before, cfg, now, unreadable, fails, left, gone, name);
        if removable {
          if fails(name) { return None; }
          RemoveMore(before, gone, name);
          gone := gone + {name};
          dir := dir.(archives := dir.archives - {name});
        }
        left := left - {name};
      }
      SweptAll(before, cfg, now, unreadable, fails, gone);
      CountWithout(before.archives, gone);
      return Some(|gone|);
    }

    /** No pending line found, or too old. */
    static method MayRemove(dir: Dir, cfg: Config, name: ArchiveName, now: nat, unreadable: set<ArchiveName>) returns (b: bool)
      requires name in dir.archives
      ensures b == Removable(dir, cfg, now, unreadable, name)
    {
      var pendings := CountPendingInArchive(dir.archives[name], name !in unreadable);
      PendingCountZero(dir.archives[name]);
      b := pendings == 0 || TooOld(cfg, name, now);
    }

    /** A file that cannot be opened has no pending lines to count. */
    static method CountPendingInArchive(file: File, opens: bool) returns (count: nat)
      ensures count == if opens then PendingCount(file) else 0
    {
      count := 0;
      if !opens {
        return;
      }
      for i := 0 to |file|
        invariant count == PendingCount(file[..i])
      {
        assert file[..i + 1][..i] == file[..i];
        if IsPendingLine(file[i]) {
          count := count + 1;
        }
      }
      assert file[..|file|] == file;
    }
  }
}
