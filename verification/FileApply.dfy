/** What applying a list of overlays leaves in every file: the content its own
    writes make of the earlier one, in their order, and nothing else. */
module FileApply {
  import opened Lists
  import opened FileRestore

  function ContentOf(e: Option<Entry>): Option<string> {
    if e.Some? then Some(e.value.content) else None
  }

  /** One path after the writes: each write to it renders what is there into
      what is there next, with its own mode, or 0600 when it has none. A write
      to another path does not matter, and one that refuses leaves the file. */
  function Image(files: Files, writes: seq<Write>, p: string): Option<Entry> {
    if writes == [] then At(files, p)
    else
      var w := writes[|writes| - 1];
      var before := Image(files, writes[..|writes| - 1], p);
      if w.path != p || w.render(ContentOf(before)).None? then before
      else Some(Entry(w.render(ContentOf(before)).value, if w.mode == 0 then 0x180 else w.mode))
  }

  /** Write `k` goes through: nothing interferes, it renders, and the result can
      be read back. */
  predicate GoesThrough(files: Files, writes: seq<Write>, faults: seq<Fault>, k: nat)
    requires |faults| == |writes| && k < |writes|
  {
    var text := writes[k].render(ContentOf(Image(files, writes[..k], writes[k].path)));
    faults[k] == NoFault && text.Some? && |text.value| <= 4 * 1024 * 1024
  }

  /** How many writes have replaced their file when write `n` is the first not
      to go through. */
  function Reached(faults: seq<Fault>, n: nat): nat
    requires n < |faults|
  {
    if faults[n] == WriteFails then n else n + 1
  }

  /** The files after the first `n` writes were attempted. */
  ghost predicate Follows(files: Files, writes: seq<Write>, faults: seq<Fault>, n: nat, s: Progress)
    requires |faults| == |writes| && n <= |writes|
  {
    && (!s.failed <==> forall k: nat :: k < n ==> GoesThrough(files, writes, faults, k))
    && (!s.failed ==> forall p :: At(s.files, p) == Image(files, writes[..n], p))
    && (s.failed ==> exists j: nat :: StoppedAt(files, writes, faults, n, j, s))
  }

  ghost predicate StoppedAt(files: Files, writes: seq<Write>, faults: seq<Fault>, n: nat, j: nat, s: Progress)
    requires |faults| == |writes| && n <= |writes|
  {
    && j < n && !GoesThrough(files, writes, faults, j) && (forall k: nat :: k < j ==> GoesThrough(files, writes, faults, k))
    && forall p :: At(s.files, p) == Image(files, writes[..Reached(faults, j)], p)
  }

  lemma ImageStep(files: Files, writes: seq<Write>, n: nat, p: string)
    requires n < |writes|
    ensures var before := Image(files, writes[..n], p);
            var text := writes[n].render(ContentOf(before));
            Image(files, writes[..n + 1], p)
            == if writes[n].path != p || text.None? then before
               else Some(Entry(text.value, if writes[n].mode == 0 then 0x180 else writes[n].mode))
  {
    assert writes[..n + 1][..n] == writes[..n];
  }

  /** One more write on top of files that are the image of those before it. */
  lemma OneMoreWrite(hash: string -> string, files: Files, writes: seq<Write>, faults: seq<Fault>, n: nat, s: Progress)
    requires |faults| == |writes| && n < |writes| && writes[n].path in s.ledger && !s.failed
    requires forall p :: At(s.files, p) == Image(files, writes[..n], p)
    ensures var s' := ApplyOne(hash, s, writes[n], faults[n]);
            && (!s'.failed <==> GoesThrough(files, writes, faults, n))
            && forall p :: At(s'.files, p) == Image(files, writes[..Reached(faults, n)], p)
  {
    var w := writes[n];
    assert At(s.files, w.path) == Image(files, writes[..n], w.path);
    forall p
      ensures At(ApplyOne(hash, s, w, faults[n]).files, p) == Image(files, writes[..Reached(faults, n)], p)
    {
      ImageStep(files, writes, n, p);
      assert At(s.files, p) == Image(files, writes[..n], p);
    }
  }

  lemma {:induction false} AfterFollows(hash: string -> string, files: Files, writes: seq<Write>, faults: seq<Fault>, n: nat)
    requires |faults| == |writes| && n <= |writes|
    ensures Follows(files, writes, faults, n, After(hash, files, writes, faults, n))
  {
    hide *;
    if n == 0 {
      NothingFollows(hash, files, writes, faults);
    } else {
      AfterFollows(hash, files, writes, faults, n - 1);
      AfterStep(hash, files, writes, faults, n);
      FollowsOn(hash, files, writes, faults, n - 1, After(hash, files, writes, faults, n - 1));
    }
  }

  lemma NothingFollows(hash: string -> string, files: Files, writes: seq<Write>, faults: seq<Fault>)
    requires |faults| == |writes|
    ensures Follows(files, writes, faults, 0, After(hash, files, writes, faults, 0))
  {
    hide GoesThrough;
    assert writes[..0] == [];
  }

  lemma FollowsOn(hash: string -> string, files: Files, writes: seq<Write>, faults: seq<Fault>, n: nat, s: Progress)
    requires |faults| == |writes| && n < |writes| && Follows(files, writes, faults, n, s) && writes[n].path in s.ledger
    ensures Follows(files, writes, faults, n + 1, ApplyOne(hash, s, writes[n], faults[n]))
  {
    hide ApplyOne, GoesThrough, Image;
    var s' := ApplyOne(hash, s, writes[n], faults[n]);
    if s.failed {
      FailedStays(hash, s, writes[n], faults[n]);
      var j: nat :| StoppedAt(files, writes, faults, n, j, s);
      assert StoppedAt(files, writes, faults, n + 1, j, s');
    } else {
      OneMoreWrite(hash, files, writes, faults, n, s);
      if s'.failed {
        assert StoppedAt(files, writes, faults, n + 1, n, s');
      } else {
        FaultlessReaches(files, writes, faults, n);
      }
    }
  }

  lemma FaultlessReaches(files: Files, writes: seq<Write>, faults: seq<Fault>, n: nat)
    requires |faults| == |writes| && n < |writes| && GoesThrough(files, writes, faults, n)
    ensures Reached(faults, n) == n + 1
  {
  }

  /** A run succeeds exactly when every write goes through. Then every path, of
      a write or not, is what its own writes make of the earlier file; otherwise
      it is that of the writes up to the first that did not go through. */
  lemma AppliedExactly(hash: string -> string, files: Files, writes: seq<Write>, faults: seq<Fault>, p: string)
    requires |faults| == |writes|
    ensures var s := ApplyAll(hash, Start(files, writes), writes, faults);
            && (!s.failed <==> forall k: nat :: k < |writes| ==> GoesThrough(files, writes, faults, k))
            && (!s.failed ==> At(s.files, p) == Image(files, writes, p))
            && (s.failed ==>
                  exists j: nat :: j < |writes| && !GoesThrough(files, writes, faults, j)
                                   && (forall k: nat :: k < j ==> GoesThrough(files, writes, faults, k))
                                   && At(s.files, p) == Image(files, writes[..Reached(faults, j)], p))
  {
    hide ApplyAll, After, Start, GoesThrough, Image;
    var n := |writes|;
    AfterIsApplied(hash, files, writes, faults, n);
    assert writes[..n] == writes && faults[..n] == faults;
    AfterFollows(hash, files, writes, faults, n);
    var s := After(hash, files, writes, faults, n);
    if s.failed {
      var j: nat :| StoppedAt(files, writes, faults, n, j, s);
    }
  }

  /** A path no write names is never touched, whatever happens. */
  lemma {:induction false} OthersUntouched(files: Files, writes: seq<Write>, p: string)
    requires forall w <- writes :: w.path != p
    ensures Image(files, writes, p) == At(files, p)
  {
    if writes != [] {
      OthersUntouched(files, writes[..|writes| - 1], p);
    }
  }

  /** One write that goes through leaves exactly what it rendered. */
  lemma OneWrite(hash: string -> string, files: Files, w: Write)
    requires var text := w.render(ContentOf(At(files, w.path))); text.Some? && |text.value| <= 4 * 1024 * 1024
    ensures var s := ApplyAll(hash, Start(files, [w]), [w], [NoFault]);
            && !s.failed
            && At(s.files, w.path) == Some(Entry(w.render(ContentOf(At(files, w.path))).value,
                                                 if w.mode == 0 then 0x180 else w.mode))
  {
    hide ApplyAll, Start;
    assert [w][..0] == [] && [w][..1] == [w];
    ImageStep(files, [w], 0, w.path);
    AppliedExactly(hash, files, [w], [NoFault], w.path);
  }
}
