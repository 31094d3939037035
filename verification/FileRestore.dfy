/** Applying a list of configuration overlays and undoing it: snapshots before,
    a hash of what was written, roll-back when a write fails, and a restore that
    keeps whatever was edited since. */
module FileRestore {
  import opened Lists

  const READ_BOUND := 4 * 1024 * 1024

  const PRIVATE_MODE := 384

  datatype Entry = Entry(content: string, mode: nat)

  type Files = map<string, Entry>

  function At(files: Files, p: string): Option<Entry> {
    if p in files then Some(files[p]) else None
  }

  predicate Small(content: string) { |content| <= READ_BOUND }

  /** A write with mode 0 gets the private mode. */
  function Moded(e: Entry): Entry { if e.mode == 0 then e.(mode := PRIVATE_MODE) else e }

  function Fixed(e: Option<Entry>): Option<Entry> { if e.Some? then Some(Moded(e.value)) else None }

  /** One overlay. `render` merges it into what is there, or refuses: a parse
      error, a failed backup, a secret in the content, an unsupported policy.
      `allowed` is the verdict of path expansion and preflight. */
  datatype Write = Write(path: string, mode: nat, allowed: bool, render: Option<string> -> Option<string>)

  /** What goes wrong outside the program's control: the write itself, or a
      verification after it. */
  datatype Fault = NoFault | WriteFails | CheckFails

  // ---------------------------------------------------------------- restoring, path by path

  /** What a run remembers of one managed path. */
  datatype Record = Record(before: Option<Entry>, overlay: Option<string>, completed: bool, forced: bool)

  type Ledger = map<string, Record>

  function Rendered(w: Write, files: Files): Option<string> {
    w.render(if w.path in files then Some(files[w.path].content) else None)
  }

  /** Too large to read back, or not what was written. */
  predicate Kept(hash: string -> string, r: Record, cur: Option<Entry>) {
    && r.completed && cur.Some?
    && (!Small(cur.value.content) || (Some(hash(cur.value.content)) != r.overlay && !r.forced))
  }

  function RestoredEntry(hash: string -> string, r: Record, cur: Option<Entry>): Option<Entry> {
    if !r.completed || Kept(hash, r, cur) then cur else Fixed(r.before)
  }

  function RestoredAt(hash: string -> string, l: Ledger, files: Files, p: string): Option<Entry> {
    if p in l then RestoredEntry(hash, l[p], At(files, p)) else At(files, p)
  }

  function Restored(hash: string -> string, l: Ledger, files: Files): Files {
    map p | p in files.Keys + l.Keys && RestoredAt(hash, l, files, p).Some? :: RestoredAt(hash, l, files, p).value
  }

  function Reported(hash: string -> string, l: Ledger, files: Files): set<string> {
    set p | p in l && Kept(hash, l[p], At(files, p))
  }

  // ---------------------------------------------------------------- applying

  datatype Progress = Progress(files: Files, ledger: Ledger, failed: bool)

  function Paths(writes: seq<Write>): set<string> {
    set i | 0 <= i < |writes| :: writes[i].path
  }

  function Start(files: Files, writes: seq<Write>): Progress {
    Progress(files, map p | p in Paths(writes) :: Record(At(files, p), None, false, false), false)
  }

  /** One write: merge, replace the file, read it back and remember its hash. */
  function ApplyOne(hash: string -> string, s: Progress, w: Write, fault: Fault): Progress
    requires w.path in s.ledger
  {
    var content := Rendered(w, s.files);
    if s.failed then s
    else if content.None? || fault == WriteFails then s.(failed := true)
    else
      var files := s.files[w.path := Moded(Entry(content.value, w.mode))];
      var r := s.ledger[w.path].(completed := true);
      if !Small(content.value) then Progress(files, s.ledger[w.path := r.(forced := true)], true)
      else
        var r' := r.(overlay := Some(hash(content.value)));
        if fault == CheckFails then Progress(files, s.ledger[w.path := r'.(forced := true)], true)
        else Progress(files, s.ledger[w.path := r'], false)
  }

  function ApplyAll(hash: string -> string, s: Progress, writes: seq<Write>, faults: seq<Fault>): (r: Progress)
    requires |faults| == |writes| && Paths(writes) <= s.ledger.Keys
    ensures r.ledger.Keys == s.ledger.Keys
  {
    if writes == [] then s
    else
      var n := |writes| - 1;
      assert writes[n].path in Paths(writes);
      assert Paths(writes[..n]) <= Paths(writes) by {
        forall p | p in Paths(writes[..n]) ensures p in Paths(writes) {
          var i :| 0 <= i < n && writes[..n][i].path == p;
          assert writes[i].path == p;
        }
      }
      ApplyOne(hash, ApplyAll(hash, s, writes[..n], faults[..n]), writes[n], faults[n])
  }

  /** Every file a snapshot can hold is within the read bound. */
  predicate Snapshotable(files: Files, writes: seq<Write>) {
    forall i :: 0 <= i < |writes| ==>
      writes[i].allowed && (writes[i].path in files ==> Small(files[writes[i].path].content))
  }

  // ---------------------------------------------------------------- the run

  datatype Snapshot = Snapshot(path: string, before: Option<Entry>, overlay: Option<string>)

  class Disk {
    var files: Files

    constructor (files: Files)
      ensures this.files == files
    {
      this.files := files;
    }

    method AtomicWrite(p: string, content: string, mode: nat)
      modifies this
      ensures files == old(files)[p := Moded(Entry(content, mode))]
    {
      files := files[p := Entry(content, if mode == 0 then PRIVATE_MODE else mode)];
    }

    method Remove(p: string)
      modifies this
      ensures files == old(files) - {p}
    {
      files := files - {p};
    }
  }

  /** The state a restore closure captures. */
  class Overlay {
    const hash: string -> string
    const disk: Disk
    var snapshots: seq<Snapshot>
    var byPath: map<string, nat>
    var completed: set<string>
    var forceRestore: set<string>
    var restored: bool

    ghost predicate Valid()
      reads this
    {
      && (forall i :: 0 <= i < |snapshots| ==> snapshots[i].path in byPath && byPath[snapshots[i].path] == i)
      && (forall p :: p in byPath ==> byPath[p] < |snapshots| && snapshots[byPath[p]].path == p)
      && completed <= byPath.Keys && forceRestore <= byPath.Keys
    }

    ghost function LedgerNow(): Ledger
      reads this
      requires Valid()
    {
      map p | p in byPath :: Record(snapshots[byPath[p]].before, snapshots[byPath[p]].overlay, p in completed, p in forceRestore)
    }

    constructor (hash: string -> string, disk: Disk)
      ensures this.hash == hash && this.disk == disk && Valid() && LedgerNow() == map[] && !restored && snapshots == []
    {
      this.hash, this.disk := hash, disk;
      snapshots, byPath, completed, forceRestore, restored := [], map[], {}, {}, false;
    }

    /** Records every managed path once, before anything is written. */
    method TakeSnapshots(writes: seq<Write>) returns (ok: bool)
      requires Valid() && LedgerNow() == map[] && snapshots == []
      modifies this
      ensures Valid() && restored == old(restored)
      ensures ok <==> Snapshotable(disk.files, writes)
      ensures ok ==> LedgerNow() == Start(disk.files, writes).ledger
    {
      StartIsEmpty(disk.files, writes[..0]);
      for i := 0 to |writes|
        invariant Valid() && restored == old(restored)
        invariant LedgerNow() == Start(disk.files, writes[..i]).ledger && Snapshotable(disk.files, writes[..i])
      {
        hide Valid, LedgerNow, Start, Snapshotable, Paths;
        var w := writes[i];
        StartGrows(disk.files, writes, i);
        if !w.allowed {
          return false;
        }
        if Tracks(w.path) {
          SeenIsSmall(writes, i, disk.files);
          continue;
        }
        if w.path in disk.files && !Small(disk.files[w.path].content) {
          return false;
        }
        Track(w.path);
      }
      assert writes[..|writes|] == writes;
      return true;
    }

    predicate Tracks(p: string)
      requires Valid()
      reads this
      ensures Tracks(p) <==> p in LedgerNow()
    {
      p in byPath
    }

    method Track(p: string)
      requires Valid() && p !in LedgerNow()
      modifies this
      ensures Valid() && restored == old(restored)
      ensures LedgerNow() == old(LedgerNow())[p := Record(At(disk.files, p), None, false, false)]
    {
      byPath := byPath[p := |snapshots|];
      snapshots := snapshots + [Snapshot(p, At(disk.files, p), None)];
    }

    /** The callback after a write: mark it, read it back, keep its hash. */
    method Complete(p: string, fault: Fault) returns (ok: bool)
      requires Valid() && p in LedgerNow() && p in disk.files && fault != WriteFails
      modifies this
      ensures Valid() && restored == old(restored)
      ensures ok <==> Small(disk.files[p].content) && fault == NoFault
      ensures var r := old(LedgerNow())[p].(completed := true);
              var r' := if Small(disk.files[p].content) then r.(overlay := Some(hash(disk.files[p].content))) else r;
              LedgerNow() == old(LedgerNow())[p := if ok then r' else r'.(forced := true)]
    {
      hide Small;
      var idx := byPath[p];
      completed := completed + {p};
      var content := disk.files[p].content;
      if !Small(content) {
        forceRestore := forceRestore + {p};
        return false;
      }
      snapshots := snapshots[idx := snapshots[idx].(overlay := Some(hash(content)))];
      if fault == CheckFails {
        forceRestore := forceRestore + {p};
        return false;
      }
      return true;
    }

    method ApplyFileWrites(writes: seq<Write>, faults: seq<Fault>) returns (ok: bool)
      requires Valid() && |faults| == |writes| && Paths(writes) <= LedgerNow().Keys
      modifies this, disk
      ensures Valid() && restored == old(restored)
      ensures var s := ApplyAll(hash, Progress(old(disk.files), old(LedgerNow()), false), writes, faults);
              disk.files == s.files && LedgerNow() == s.ledger && ok == !s.failed
    {
      ghost var start := Progress(disk.files, LedgerNow(), false);
      for i := 0 to |writes|
        invariant Valid() && restored == old(restored) && Paths(writes[..i]) <= start.ledger.Keys
        invariant ApplyAll(hash, start, writes[..i], faults[..i]) == Progress(disk.files, LedgerNow(), false)
      {
        hide ApplyAll, ApplyOne, Valid, LedgerNow, Paths;
        ApplyUnfolds(hash, start, writes, faults, i);
        ok := ApplyWrite(writes[i], faults[i]);
        if !ok {
          ApplyStaysFailed(hash, start, writes, faults, i + 1);
          return;
        }
      }
      assert writes[..|writes|] == writes && faults[..|faults|] == faults;
      return true;
    }

    method ApplyWrite(w: Write, fault: Fault) returns (ok: bool)
      requires Valid() && w.path in LedgerNow()
      modifies this, disk
      ensures Valid() && restored == old(restored)
      ensures ApplyOne(hash, Progress(old(disk.files), old(LedgerNow()), false), w, fault)
              == Progress(disk.files, LedgerNow(), !ok)
    {
      hide LedgerNow, Valid;
      var content := w.render(if w.path in disk.files then Some(disk.files[w.path].content) else None);
      if content.None? || fault == WriteFails {
        return false;
      }
      disk.AtomicWrite(w.path, content.value, w.mode);
      ok := Complete(w.path, fault);
    }

    /** Puts every completed path back unless it was edited since; runs once. */
    method Restore() returns (errs: set<string>)
      requires Valid()
      modifies disk, this`restored
      ensures Valid() && restored
      ensures disk.files == if old(restored) then old(disk.files) else Restored(hash, LedgerNow(), old(disk.files))
      ensures errs == if old(restored) then {} else Reported(hash, LedgerNow(), old(disk.files))
    {
      errs := {};
      if restored {
        return;
      }
      restored := true;
      ghost var start := disk.files;
      ghost var l := LedgerNow();
      ghost var ps := PathsInOrder();
      hide Halfway, Restored, RestoredAt, Reported, Kept, RestoredEntry, Valid, LedgerNow, At;
      NotStarted(hash, l, start, ps);
      for i := |snapshots| downto 0
        invariant Valid() && LedgerNow() == l && restored
        invariant Halfway(hash, l, start, disk.files, ps, errs, i)
      {
        ghost var before, reported := disk.files, errs;
        var kept := RestoreOne(i);
        if kept {
          errs := errs + {snapshots[i].path};
        }
        OneRestored(hash, l, start, before, disk.files, ps, reported, errs, i);
      }
      RestoredWhole(hash, l, start, disk.files, ps, errs);
    }

    lemma PathsInOrder() returns (ps: seq<string>)
      requires Valid()
      ensures |ps| == |snapshots| && (forall i :: 0 <= i < |ps| ==> ps[i] == snapshots[i].path)
      ensures forall i, j :: 0 <= i < j < |ps| ==> ps[i] != ps[j]
      ensures forall p :: p in ps <==> p in LedgerNow()
    {
      ps := seq(|snapshots|, i requires 0 <= i < |snapshots| reads this => snapshots[i].path);
      forall p | p in LedgerNow()
        ensures p in ps
      {
        assert ps[byPath[p]] == p;
      }
    }

    /** One snapshot's turn; true when the file is kept and reported. */
    method RestoreOne(i: nat) returns (kept: bool)
      requires Valid() && i < |snapshots| && snapshots[i].path in LedgerNow()
      modifies disk
      ensures var p := snapshots[i].path;
              && kept == Kept(hash, LedgerNow()[p], At(old(disk.files), p))
              && At(disk.files, p) == RestoredAt(hash, LedgerNow(), old(disk.files), p)
              && forall q :: q != p ==> At(disk.files, q) == At(old(disk.files), q)
    {
      var snap := snapshots[i];
      if snap.path !in completed {
        return false;
      }
      if snap.path in disk.files && !Small(disk.files[snap.path].content) {
        return true;
      }
      if snap.path in disk.files && Some(hash(disk.files[snap.path].content)) != snap.overlay {
        if snap.path !in forceRestore {
          return true;
        }
        PutBack(snap);
        return false;
      }
      PutBack(snap);
      return false;
    }

    method PutBack(snap: Snapshot)
      modifies disk
      ensures forall p :: At(disk.files, p) == if p == snap.path then Fixed(snap.before) else At(old(disk.files), p)
    {
      if snap.before.Some? {
        disk.AtomicWrite(snap.path, snap.before.value.content, snap.before.value.mode);
      } else if snap.path in disk.files {
        disk.Remove(snap.path);
      }
    }

    /** Snapshot, apply, and on any failure restore at once. */
    method ApplyWithRestore(writes: seq<Write>, faults: seq<Fault>) returns (ok: bool, errs: set<string>)
      requires Valid() && LedgerNow() == map[] && snapshots == [] && !restored && |faults| == |writes|
      modifies this, disk
      ensures Valid()
      ensures !Snapshotable(old(disk.files), writes) ==> !ok && disk.files == old(disk.files)
      ensures (exists i :: 0 <= i < |writes| && !writes[i].allowed) ==> !ok && disk.files == old(disk.files)
      ensures Snapshotable(old(disk.files), writes) ==>
                var s := ApplyAll(hash, Start(old(disk.files), writes), writes, faults);
                && ok == !s.failed && LedgerNow() == s.ledger && restored == s.failed
                && disk.files == (if s.failed then Restored(hash, s.ledger, s.files) else s.files)
                && errs == if s.failed then Reported(hash, s.ledger, s.files) else {}
    {
      errs := {};
      ok := TakeSnapshots(writes);
      if !ok {
        return;
      }
      ok := ApplyFileWrites(writes, faults);
      if !ok {
        errs := Restore();
      }
    }
  }

  /** Paths from `i` on are restored, the ones before as they were. */
  ghost predicate Halfway(hash: string -> string, l: Ledger, start: Files, now: Files, ps: seq<string>, errs: set<string>,
                          i: int) {
    && (forall p :: p in ps <==> p in l)
    && (forall j :: 0 <= j < |ps| ==>
          At(now, ps[j]) == if j < i then At(start, ps[j]) else RestoredAt(hash, l, start, ps[j]))
    && (forall p :: p !in l ==> At(now, p) == At(start, p))
    && (forall j :: 0 <= j < |ps| ==> (ps[j] in errs <==> i <= j && Kept(hash, l[ps[j]], At(start, ps[j]))))
    && errs <= l.Keys
  }

  lemma NotStarted(hash: string -> string, l: Ledger, start: Files, ps: seq<string>)
    requires forall p :: p in ps <==> p in l
    ensures Halfway(hash, l, start, start, ps, {}, |ps|)
  {
  }

  lemma OneRestored(hash: string -> string, l: Ledger, start: Files, before: Files, now: Files, ps: seq<string>,
                    reported: set<string>, errs: set<string>, i: nat)
    requires i < |ps| && (forall j, k :: 0 <= j < k < |ps| ==> ps[j] != ps[k])
    requires Halfway(hash, l, start, before, ps, reported, i + 1) && ps[i] in l
    requires At(now, ps[i]) == RestoredAt(hash, l, before, ps[i])
    requires forall q :: q != ps[i] ==> At(now, q) == At(before, q)
    requires errs == if Kept(hash, l[ps[i]], At(before, ps[i])) then reported + {ps[i]} else reported
    ensures Halfway(hash, l, start, now, ps, errs, i)
  {
  }

  lemma RestoredWhole(hash: string -> string, l: Ledger, start: Files, now: Files, ps: seq<string>, errs: set<string>)
    requires Halfway(hash, l, start, now, ps, errs, 0)
    ensures now == Restored(hash, l, start) && errs == Reported(hash, l, start)
  {
  }

  lemma StartIsEmpty(files: Files, writes: seq<Write>)
    requires writes == []
    ensures Start(files, writes).ledger == map[] && Snapshotable(files, writes)
  {
  }

  lemma StartGrows(files: Files, writes: seq<Write>, i: nat)
    requires i < |writes|
    ensures Start(files, writes[..i + 1]).ledger
            == Start(files, writes[..i]).ledger[writes[i].path := Record(At(files, writes[i].path), None, false, false)]
    ensures writes[i].path in Start(files, writes[..i]).ledger
            ==> Start(files, writes[..i + 1]).ledger == Start(files, writes[..i]).ledger
    ensures Snapshotable(files, writes) ==> Snapshotable(files, writes[..i + 1])
    ensures Snapshotable(files, writes[..i + 1])
            <==> Snapshotable(files, writes[..i]) && writes[i].allowed
                 && (writes[i].path in files ==> Small(files[writes[i].path].content))
  {
    assert writes[..i + 1] == writes[..i] + [writes[i]];
    PathsAppend(writes[..i], writes[i]);
  }

  lemma PathsAppend(writes: seq<Write>, w: Write)
    ensures Paths(writes + [w]) == Paths(writes) + {w.path}
  {
    var all := writes + [w];
    forall p
      ensures p in Paths(all) <==> p in Paths(writes) || p == w.path
    {
      if p in Paths(writes) {
        var i :| 0 <= i < |writes| && writes[i].path == p;
        assert all[i].path == p;
      }
      if p == w.path {
        assert all[|writes|].path == p;
      }
    }
  }

  lemma SeenIsSmall(writes: seq<Write>, i: nat, files: Files)
    requires i < |writes| && writes[i].path in Start(files, writes[..i]).ledger && Snapshotable(files, writes[..i])
    ensures writes[i].path in files ==> Small(files[writes[i].path].content)
  {
  }

  lemma SameFiles(a: Files, b: Files)
    requires forall p :: At(a, p) == At(b, p)
    ensures a == b
  {
    forall p
      ensures p in a <==> p in b
      ensures p in a ==> a[p] == b[p]
    {
      assert At(a, p) == At(b, p);
    }
  }

  lemma ApplyUnfolds(hash: string -> string, s: Progress, writes: seq<Write>, faults: seq<Fault>, i: nat)
    requires i < |writes| && |faults| == |writes| && Paths(writes) <= s.ledger.Keys
    ensures Paths(writes[..i]) <= s.ledger.Keys && Paths(writes[..i + 1]) <= s.ledger.Keys
            && writes[i].path in s.ledger
    ensures ApplyAll(hash, s, writes[..i + 1], faults[..i + 1])
            == ApplyOne(hash, ApplyAll(hash, s, writes[..i], faults[..i]), writes[i], faults[i])
  {
    assert writes[i].path in Paths(writes);
    forall p, n: nat | n <= |writes| && p in Paths(writes[..n])
      ensures p in Paths(writes)
    {
      var k :| 0 <= k < n && writes[..n][k].path == p;
      assert writes[k].path == p;
    }
    assert writes[..i + 1][..i] == writes[..i] && faults[..i + 1][..i] == faults[..i];
  }

  lemma {:induction false} ApplyStaysFailed(hash: string -> string, s: Progress, writes: seq<Write>, faults: seq<Fault>, i: nat)
    requires i <= |writes| && |faults| == |writes| && Paths(writes) <= s.ledger.Keys
    requires Paths(writes[..i]) <= s.ledger.Keys && ApplyAll(hash, s, writes[..i], faults[..i]).failed
    ensures ApplyAll(hash, s, writes, faults) == ApplyAll(hash, s, writes[..i], faults[..i])
    decreases |writes| - i
  {
    if i < |writes| {
      ApplyUnfolds(hash, s, writes, faults, i);
      ApplyStaysFailed(hash, s, writes, faults, i + 1);
    } else {
      assert writes[..i] == writes && faults[..i] == faults;
    }
  }

  // ---------------------------------------------------------------- what restoring achieves

  /** Earlier existence and content, and the earlier mode unless it was 0. */
  predicate Back(before: Option<Entry>, now: Option<Entry>) {
    now == before || (before.Some? && before.value.mode == 0 && now == Some(Entry(before.value.content, 0x180)))
  }

  ghost predicate CollisionFree(hash: string -> string) {
    forall a, b :: hash(a) == hash(b) ==> a == b
  }

  /** What applying keeps for each path: an untouched path is as it was, and a
      written one carries the remembered hash unless it is too large to read. */
  predicate TracksPath(hash: string -> string, files: Files, s: Progress, p: string)
    requires p in s.ledger
  {
    var r := s.ledger[p];
    && r.before == At(files, p)
    && (!r.completed ==> At(s.files, p) == At(files, p))
    && (r.completed ==>
          && At(s.files, p).Some?
          && (Small(s.files[p].content) ==> r.overlay == Some(hash(s.files[p].content)))
          && (!s.failed ==> Small(s.files[p].content)))
    && (!s.failed ==> !r.forced)
  }

  ghost predicate Tracked(hash: string -> string, files: Files, s: Progress) {
    && (forall p :: p in s.ledger ==> TracksPath(hash, files, s, p))
    && (forall p :: p !in s.ledger ==> At(s.files, p) == At(files, p))
  }

  lemma ApplyOneTracks(hash: string -> string, files: Files, s: Progress, w: Write, fault: Fault)
    requires Tracked(hash, files, s) && w.path in s.ledger
    ensures Tracked(hash, files, ApplyOne(hash, s, w, fault))
    ensures !ApplyOne(hash, s, w, fault).failed ==> ApplyOne(hash, s, w, fault).ledger[w.path].completed
    ensures forall p :: p in s.ledger && s.ledger[p].completed ==> ApplyOne(hash, s, w, fault).ledger[p].completed
  {
    var s' := ApplyOne(hash, s, w, fault);
    forall p | p in s'.ledger
      ensures TracksPath(hash, files, s', p)
    {
      assert TracksPath(hash, files, s, p);
    }
  }

  lemma StartTracks(hash: string -> string, files: Files, writes: seq<Write>)
    ensures Tracked(hash, files, Start(files, writes))
  {
  }

  lemma FailedStays(hash: string -> string, s: Progress, w: Write, fault: Fault)
    requires w.path in s.ledger
    ensures s.failed ==> ApplyOne(hash, s, w, fault) == s
  {
  }

  /** A write replaced its file with content too large to read back. */
  predicate TooLarge(s: Progress, p: string) {
    p in s.ledger && s.ledger[p].completed && p in s.files && !Small(s.files[p].content)
  }

  /** The state after the first `n` writes were attempted. */
  function After(hash: string -> string, files: Files, writes: seq<Write>, faults: seq<Fault>, n: nat): (s: Progress)
    requires |faults| == |writes| && n <= |writes|
    ensures s.ledger.Keys == Paths(writes)
    decreases n
  {
    if n == 0 then Start(files, writes)
    else
      assert writes[n - 1].path in Paths(writes);
      ApplyOne(hash, After(hash, files, writes, faults, n - 1), writes[n - 1], faults[n - 1])
  }

  lemma {:induction false} AfterIsApplied(hash: string -> string, files: Files, writes: seq<Write>, faults: seq<Fault>, n: nat)
    requires |faults| == |writes| && n <= |writes|
    ensures Paths(writes[..n]) <= Start(files, writes).ledger.Keys
    ensures After(hash, files, writes, faults, n) == ApplyAll(hash, Start(files, writes), writes[..n], faults[..n])
    decreases n
  {
    hide ApplyOne, Start;
    if n == 0 {
      assert writes[..0] == [] && faults[..0] == [];
    } else {
      AfterIsApplied(hash, files, writes, faults, n - 1);
      ApplyUnfolds(hash, Start(files, writes), writes, faults, n - 1);
    }
  }

  /** Write `k` was reached, went through, and was too large to read back. */
  predicate OversizedAt(hash: string -> string, files: Files, writes: seq<Write>, faults: seq<Fault>, k: nat)
    requires |faults| == |writes|
  {
    && k < |writes| && faults[k] != WriteFails
    && var s := After(hash, files, writes, faults, k);
       !s.failed && Rendered(writes[k], s.files).Some? && !Small(Rendered(writes[k], s.files).value)
  }

  /** Path `p` was replaced, within the first `n` writes, by an overlay too
      large to read back. */
  ghost predicate Oversized(hash: string -> string, files: Files, writes: seq<Write>, faults: seq<Fault>, n: nat, p: string)
    requires |faults| == |writes|
  {
    exists k :: 0 <= k < n && OversizedAt(hash, files, writes, faults, k) && writes[k].path == p
  }

  lemma OversizedOneMore(hash: string -> string, files: Files, writes: seq<Write>, faults: seq<Fault>, n: nat, p: string)
    requires |faults| == |writes| && 0 < n <= |writes|
    ensures Oversized(hash, files, writes, faults, n, p)
            <==> Oversized(hash, files, writes, faults, n - 1, p)
                 || (OversizedAt(hash, files, writes, faults, n - 1) && writes[n - 1].path == p)
  {
  }

  lemma {:induction false} AfterTracks(hash: string -> string, files: Files, writes: seq<Write>, faults: seq<Fault>, n: nat)
    requires |faults| == |writes| && n <= |writes|
    ensures Tracked(hash, files, After(hash, files, writes, faults, n))
    decreases n
  {
    hide Tracked, ApplyOne;
    if n == 0 {
      StartTracks(hash, files, writes);
    } else {
      AfterTracks(hash, files, writes, faults, n - 1);
      WriteHasPath(writes, n - 1);
      ApplyOneTracks(hash, files, After(hash, files, writes, faults, n - 1), writes[n - 1], faults[n - 1]);
    }
  }

  lemma NothingTooLarge(hash: string -> string, files: Files, writes: seq<Write>, faults: seq<Fault>, p: string)
    requires |faults| == |writes|
    ensures !TooLarge(After(hash, files, writes, faults, 0), p) && !Oversized(hash, files, writes, faults, 0, p)
  {
  }

  /** A path is too large to read back exactly when some write to it was. */
  lemma {:induction false} TooLargeWhen(hash: string -> string, files: Files, writes: seq<Write>, faults: seq<Fault>, n: nat,
                                        p: string)
    requires |faults| == |writes| && n <= |writes|
    ensures TooLarge(After(hash, files, writes, faults, n), p) <==> Oversized(hash, files, writes, faults, n, p)
    decreases n
  {
    hide *;
    if n == 0 {
      NothingTooLarge(hash, files, writes, faults, p);
    } else {
      TooLargeWhen(hash, files, writes, faults, n - 1, p);
      AfterTracks(hash, files, writes, faults, n - 1);
      OversizedOneMore(hash, files, writes, faults, n, p);
      TooLargeOneMore(hash, files, writes, faults, n, p);
    }
  }

  lemma TooLargeOneMore(hash: string -> string, files: Files, writes: seq<Write>, faults: seq<Fault>, n: nat, p: string)
    requires |faults| == |writes| && 0 < n <= |writes| && Tracked(hash, files, After(hash, files, writes, faults, n - 1))
    ensures TooLarge(After(hash, files, writes, faults, n), p)
            <==> TooLarge(After(hash, files, writes, faults, n - 1), p)
                 || (OversizedAt(hash, files, writes, faults, n - 1) && writes[n - 1].path == p)
  {
  }

  lemma WriteHasPath(writes: seq<Write>, k: nat)
    requires k < |writes|
    ensures writes[k].path in Paths(writes)
  {
  }

  lemma LargeStep(hash: string -> string, files: Files, s: Progress, w: Write, fault: Fault)
    requires Tracked(hash, files, s) && w.path in s.ledger
    ensures var s' := ApplyOne(hash, s, w, fault);
            if s.failed then s' == s
            else
              && (forall p :: !TooLarge(s, p))
              && (forall p :: TooLarge(s', p) <==> p == w.path && fault != WriteFails && Rendered(w, s.files).Some?
                                                   && !Small(Rendered(w, s.files).value))
              && ((exists p :: TooLarge(s', p)) ==> s'.failed)
  {
  }

  /** A failed run is undone: every file has its earlier existence and content
      again, and nothing is reported, except a file whose overlay was too large
      to read back, which stays replaced and is reported. */
  lemma FailureUndone(hash: string -> string, files: Files, writes: seq<Write>, faults: seq<Fault>, p: string)
    requires |faults| == |writes| && Snapshotable(files, writes)
    requires ApplyAll(hash, Start(files, writes), writes, faults).failed
    ensures var s := ApplyAll(hash, Start(files, writes), writes, faults);
            var oversized := Oversized(hash, files, writes, faults, |writes|, p);
            && (Back(At(files, p), At(Restored(hash, s.ledger, s.files), p)) <==> !oversized)
            && (p in Reported(hash, s.ledger, s.files) <==> oversized)
  {
    var n := |writes|;
    var s := After(hash, files, writes, faults, n);
    AfterIsApplied(hash, files, writes, faults, n);
    assert writes[..n] == writes && faults[..n] == faults;
    AfterTracks(hash, files, writes, faults, n);
    TooLargeWhen(hash, files, writes, faults, n, p);
    RestoredPointwise(hash, s.ledger, s.files);
    hide ApplyAll, After, Oversized, Start, Restored, Back, Kept;
    if p in s.ledger {
      SmallBefore(files, writes, p);
      UndonePath(hash, files, s, p);
    } else {
      UnmanagedIsBack(At(files, p));
    }
  }

  function Big(): (s: string)
    ensures |s| == READ_BOUND + 1
  {
    seq(READ_BOUND + 1, _ => 'x')
  }

  function BigWrite(): Write { Write("f", 0, true, (before: Option<string>) => Some(Big())) }

  const SMALL_FILE: Files := map["f" := Entry("old", PRIVATE_MODE)]

  /** One overlay a byte too large: the run fails, restoring leaves the overlay
      in place of the user's file, and reports it. */
  lemma OversizedStays(hash: string -> string)
    ensures var writes := [BigWrite()];
            var s := ApplyAll(hash, Start(SMALL_FILE, writes), writes, [NoFault]);
            && Snapshotable(SMALL_FILE, writes) && s.failed
            && At(Restored(hash, s.ledger, s.files), "f") == Some(Entry(Big(), PRIVATE_MODE))
            && Reported(hash, s.ledger, s.files) == {"f"}
  {
    hide Big, ApplyAll;
    var writes, faults := [BigWrite()], [NoFault];
    var start := Start(SMALL_FILE, writes);
    assert Paths(writes) == {"f"} by {
      assert writes[0].path == "f";
    }
    ApplyUnfolds(hash, start, writes, faults, 0);
    NothingApplied(hash, start);
    assert writes[..0] == [] && faults[..0] == [] && writes[..1] == writes && faults[..1] == faults;
  }

  lemma NothingApplied(hash: string -> string, s: Progress)
    ensures ApplyAll(hash, s, [], []) == s
  {
  }

  lemma UnmanagedIsBack(e: Option<Entry>)
    ensures Back(e, e)
  {
  }

  lemma RestoredPointwise(hash: string -> string, l: Ledger, files: Files)
    ensures forall p :: At(Restored(hash, l, files), p) == RestoredAt(hash, l, files, p)
  {
  }

  lemma SmallBefore(files: Files, writes: seq<Write>, p: string)
    requires Snapshotable(files, writes) && p in Paths(writes)
    ensures p in files ==> Small(files[p].content)
  {
  }

  lemma UndonePath(hash: string -> string, files: Files, s: Progress, p: string)
    requires p in s.ledger && TracksPath(hash, files, s, p) && (p in files ==> Small(files[p].content))
    ensures Kept(hash, s.ledger[p], At(s.files, p)) <==> TooLarge(s, p)
    ensures Back(At(files, p), RestoredEntry(hash, s.ledger[p], At(s.files, p))) <==> !TooLarge(s, p)
  {
  }

  /** A run that did not fail completed every managed path. */
  lemma {:induction false} AllCompleted(hash: string -> string, files: Files, writes: seq<Write>, faults: seq<Fault>, n: nat,
                                        k: nat)
    requires |faults| == |writes| && k < n <= |writes| && !After(hash, files, writes, faults, n).failed
    ensures writes[k].path in Paths(writes) && After(hash, files, writes, faults, n).ledger[writes[k].path].completed
    decreases n
  {
    hide *;
    WriteHasPath(writes, k);
    AfterStep(hash, files, writes, faults, n);
    var s := After(hash, files, writes, faults, n - 1);
    FailedStays(hash, s, writes[n - 1], faults[n - 1]);
    AfterTracks(hash, files, writes, faults, n - 1);
    ApplyOneTracks(hash, files, s, writes[n - 1], faults[n - 1]);
    if k < n - 1 {
      AllCompleted(hash, files, writes, faults, n - 1, k);
    }
  }

  lemma AfterStep(hash: string -> string, files: Files, writes: seq<Write>, faults: seq<Fault>, n: nat)
    requires |faults| == |writes| && 0 < n <= |writes|
    ensures writes[n - 1].path in After(hash, files, writes, faults, n - 1).ledger
    ensures After(hash, files, writes, faults, n)
            == ApplyOne(hash, After(hash, files, writes, faults, n - 1), writes[n - 1], faults[n - 1])
  {
  }

  /** After a successful run and any edits since: a managed path that still has
      the written content, or was deleted, is put back as before the run; one
      that was edited is left as it is and reported; other paths are left. */
  lemma RestoreKeepsEdits(hash: string -> string, files: Files, writes: seq<Write>, faults: seq<Fault>, edited: Files, p: string)
    requires |faults| == |writes| && CollisionFree(hash)
    requires !ApplyAll(hash, Start(files, writes), writes, faults).failed
    ensures var s := ApplyAll(hash, Start(files, writes), writes, faults);
            var after := Restored(hash, s.ledger, edited);
            if p !in Paths(writes) then At(after, p) == At(edited, p) && p !in Reported(hash, s.ledger, edited)
            else if p !in edited || (p in s.files && edited[p].content == s.files[p].content)
            then Back(At(files, p), At(after, p)) && p !in Reported(hash, s.ledger, edited)
            else At(after, p) == At(edited, p) && p in Reported(hash, s.ledger, edited)
  {
    var n := |writes|;
    var s := After(hash, files, writes, faults, n);
    AfterIsApplied(hash, files, writes, faults, n);
    assert writes[..n] == writes && faults[..n] == faults;
    AfterTracks(hash, files, writes, faults, n);
    hide *;
    if p in Paths(writes) {
      var k := PathIsWritten(writes, p);
      AllCompleted(hash, files, writes, faults, n, k);
    }
    RestoredPath(hash, files, s, edited, p);
  }

  lemma PathIsWritten(writes: seq<Write>, p: string) returns (k: nat)
    requires p in Paths(writes)
    ensures k < |writes| && writes[k].path == p
  {
    k :| 0 <= k < |writes| && writes[k].path == p;
  }

  lemma RestoredPath(hash: string -> string, files: Files, s: Progress, edited: Files, p: string)
    requires CollisionFree(hash) && !s.failed && Tracked(hash, files, s) && (p in s.ledger ==> s.ledger[p].completed)
    ensures var after := Restored(hash, s.ledger, edited);
            if p !in s.ledger then At(after, p) == At(edited, p) && p !in Reported(hash, s.ledger, edited)
            else if p !in edited || (p in s.files && edited[p].content == s.files[p].content)
            then Back(At(files, p), At(after, p)) && p !in Reported(hash, s.ledger, edited)
            else At(after, p) == At(edited, p) && p in Reported(hash, s.ledger, edited)
  {
    hide Restored, Kept, RestoredEntry, Back, CollisionFree, TracksPath;
    RestoredPointwise(hash, s.ledger, edited);
    if p in s.ledger {
      RestoreOfCompleted(hash, files, s, edited, p);
    }
  }

  lemma RestoreOfCompleted(hash: string -> string, files: Files, s: Progress, edited: Files, p: string)
    requires CollisionFree(hash) && !s.failed && p in s.ledger && TracksPath(hash, files, s, p) && s.ledger[p].completed
    ensures if p !in edited || (p in s.files && edited[p].content == s.files[p].content)
            then Back(At(files, p), RestoredEntry(hash, s.ledger[p], At(edited, p))) && !Kept(hash, s.ledger[p], At(edited, p))
            else RestoredEntry(hash, s.ledger[p], At(edited, p)) == At(edited, p) && Kept(hash, s.ledger[p], At(edited, p))
  {
  }

  /** Untouched since, the run is undone completely. */
  lemma RestoreUndoes(hash: string -> string, files: Files, writes: seq<Write>, faults: seq<Fault>)
    requires |faults| == |writes| && CollisionFree(hash)
    requires !ApplyAll(hash, Start(files, writes), writes, faults).failed
    ensures var s := ApplyAll(hash, Start(files, writes), writes, faults);
            && (forall p :: Back(At(files, p), At(Restored(hash, s.ledger, s.files), p)))
            && Reported(hash, s.ledger, s.files) == {}
  {
    var s := ApplyAll(hash, Start(files, writes), writes, faults);
    forall p
      ensures Back(At(files, p), At(Restored(hash, s.ledger, s.files), p)) && p !in Reported(hash, s.ledger, s.files)
    {
      hide ApplyAll, Restored, Reported, Back;
      RestoreKeepsEdits(hash, files, writes, faults, s.files, p);
      AppliedFiles(hash, files, writes, faults, p);
    }
  }

  lemma AppliedFiles(hash: string -> string, files: Files, writes: seq<Write>, faults: seq<Fault>, p: string)
    requires |faults| == |writes|
    ensures var s := ApplyAll(hash, Start(files, writes), writes, faults);
            p !in Paths(writes) ==> At(s.files, p) == At(files, p)
  {
    var n := |writes|;
    AfterIsApplied(hash, files, writes, faults, n);
    assert writes[..n] == writes && faults[..n] == faults;
    AfterTracks(hash, files, writes, faults, n);
  }
}
