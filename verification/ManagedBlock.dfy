/** Managed blocks in a shared text file: each profile owns the lines between its
    own start and end markers and nothing else. */
module ManagedBlock {
  import opened Lists

  function BeginHead(): string { "# BEGIN AEGISKEYS MANAGED " }

  function EndHead(): string { "# END AEGISKEYS MANAGED " }

  function StartMarker(key: string): string { BeginHead() + key }

  function EndMarker(key: string): string { EndHead() + key }

  predicate Occurs(s: string, p: string, k: int) {
    0 <= k && k + |p| <= |s| && s[k..k + |p|] == p
  }

  /** The first occurrence, or -1. */
  predicate IsIndex(s: string, p: string, i: int) {
    if i < 0 then i == -1 && forall k :: 0 <= k <= |s| ==> !Occurs(s, p, k)
    else Occurs(s, p, i) && forall k :: 0 <= k < i ==> !Occurs(s, p, k)
  }

  function Index(s: string, p: string): (i: int)
    ensures IsIndex(s, p, i)
  {
    IndexFrom(s, p, 0)
  }

  function IndexFrom(s: string, p: string, k: nat): (i: int)
    requires k <= |s| + 1 && forall j :: 0 <= j < k ==> !Occurs(s, p, j)
    ensures IsIndex(s, p, i)
    decreases |s| + 1 - k
  {
    if k > |s| then -1 else if Occurs(s, p, k) then k else IndexFrom(s, p, k + 1)
  }

  predicate EndsLine(s: string) { s != "" && s[|s| - 1] == '\n' }

  function Terminated(s: string): string { if EndsLine(s) then s else s + "\n" }

  /** A block after some text, up to its end marker. */
  function Opened(before: string, key: string, content: string): string {
    before + StartMarker(key) + "\n" + Terminated(content)
  }

  function Closed(before: string, key: string, content: string): string {
    Opened(before, key, content) + EndMarker(key) + "\n"
  }

  /** A block already there can be replaced: both markers, in order. */
  predicate Replaceable(text: string, key: string) {
    var i, j := Index(text, StartMarker(key)), Index(text, EndMarker(key));
    i >= 0 && j >= 0 && i <= j
  }

  function Update(existing: Option<string>, key: string, content: string): string {
    if existing.None? then Closed("", key, content)
    else
      var text := existing.value;
      if Replaceable(text, key)
      then Opened(text[..Index(text, StartMarker(key))], key, content) + text[Index(text, EndMarker(key))..]
      else Closed(Terminated(text) + "\n", key, content)
  }

  /** The file the program keeps up to date. */
  class ManagedFile {
    var text: Option<string>

    constructor (text: Option<string>)
      ensures this.text == text
    {
      this.text := text;
    }

    method MergeBlock(key: string, newContent: string)
      modifies this
      ensures text == Some(Update(old(text), key, newContent))
    {
      if text.None? {
        var sb := WriteBlock("", key, newContent);
        text := Some(sb + EndMarker(key) + "\n");
        return;
      }
      var existing := text.value;
      var startIdx, endIdx := Index(existing, StartMarker(key)), Index(existing, EndMarker(key));
      if startIdx == -1 || endIdx == -1 || endIdx < startIdx {
        var sb := existing;
        if !EndsLine(existing) {
          sb := sb + "\n";
        }
        sb := sb + "\n";
        sb := WriteBlock(sb, key, newContent);
        text := Some(sb + EndMarker(key) + "\n");
        return;
      }
      var sb := WriteBlock(existing[..startIdx], key, newContent);
      text := Some(sb + existing[endIdx..]);
    }

    /** The start marker and the content, each on lines of their own. */
    method WriteBlock(before: string, key: string, newContent: string) returns (sb: string)
      ensures sb == Opened(before, key, newContent)
    {
      sb := before + StartMarker(key);
      sb := sb + "\n";
      ghost var head := sb;
      sb := sb + newContent;
      if !EndsLine(newContent) {
        sb := sb + "\n";
        assert (head + newContent) + "\n" == head + (newContent + "\n");
      }
    }
  }

  // ---------------------------------------------------------------- occurrences line by line

  /** A pattern without newlines cannot straddle one. */
  lemma OccursInLine(u: string, v: string, p: string, k: int)
    requires '\n' !in p && p != ""
    ensures Occurs(u + "\n" + v, p, k)
            <==> (k + |p| <= |u| && Occurs(u, p, k)) || (k > |u| && Occurs(v, p, k - |u| - 1))
  {
    var s := u + "\n" + v;
    if 0 <= k <= |u| < k + |p| <= |s| {
      assert s[k..k + |p|][|u| - k] == '\n' && p[|u| - k] in p;
    }
    if k >= 0 && k + |p| <= |u| {
      assert s[k..k + |p|] == u[k..k + |p|];
    }
    if k > |u| && k + |p| <= |s| {
      assert s[k..k + |p|] == v[k - |u| - 1..k - |u| - 1 + |p|];
    }
  }

  lemma UniqueIndex(s: string, p: string, i: int)
    requires IsIndex(s, p, i)
    ensures Index(s, p) == i
  {
  }

  lemma IndexInLines(u: string, v: string, p: string)
    requires '\n' !in p && p != ""
    ensures Index(u + "\n" + v, p)
            == if Index(u, p) >= 0 then Index(u, p)
               else if Index(v, p) >= 0 then |u| + 1 + Index(v, p) else -1
  {
    var s := u + "\n" + v;
    var i := if Index(u, p) >= 0 then Index(u, p) else if Index(v, p) >= 0 then |u| + 1 + Index(v, p) else -1;
    forall k
      ensures Occurs(s, p, k) <==> (k + |p| <= |u| && Occurs(u, p, k)) || (k > |u| && Occurs(v, p, k - |u| - 1))
    {
      OccursInLine(u, v, p, k);
    }
    UniqueIndex(s, p, i);
  }

  lemma MarkersHaveNoNewline(key: string)
    requires '\n' !in key
    ensures '\n' !in StartMarker(key) && '\n' !in EndMarker(key) && StartMarker(key) != "" && EndMarker(key) != ""
  {
  }

  lemma IndexAfterLine(w: string, rest: string, p: string)
    requires '\n' !in p && p != "" && (w == "" || EndsLine(w))
    ensures Index(w + rest, p)
            == if Index(w, p) >= 0 then Index(w, p) else if Index(rest, p) >= 0 then |w| + Index(rest, p) else -1
  {
    NoneInEmpty(p);
    if w == "" {
      assert w + rest == rest;
    } else {
      var u := w[..|w| - 1];
      assert w == u + "\n" + "" && w + rest == u + "\n" + rest;
      IndexInLines(u, "", p);
      IndexInLines(u, rest, p);
    }
  }

  lemma NoneInEmpty(p: string)
    requires p != ""
    ensures Index("", p) == -1
  {
  }

  lemma OwnIndex(p: string, rest: string)
    ensures Index(p + rest, p) == 0
  {
  }

  /** An occurrence inside a prefix is an occurrence in the whole. */
  lemma IndexInPrefix(s: string, n: nat, p: string)
    requires n <= |s|
    ensures Index(s[..n], p) == if 0 <= Index(s, p) <= n - |p| then Index(s, p) else -1
  {
    forall k
      ensures Occurs(s[..n], p, k) <==> Occurs(s, p, k) && k + |p| <= n
    {
      if 0 <= k && k + |p| <= n {
        assert s[..n][k..k + |p|] == s[k..k + |p|];
      }
    }
    UniqueIndex(s[..n], p, if 0 <= Index(s, p) <= n - |p| then Index(s, p) else -1);
  }

  /** A start marker never contains its own end marker. */
  lemma OwnMarkersApart(key: string, k: int)
    ensures !Occurs(StartMarker(key), EndMarker(key), k)
  {
    var s, e := StartMarker(key), EndMarker(key);
    assert s[0] == '#' && s[1] == ' ' && s[2] == 'B' && e[0] == '#' && e[2] == 'E';
    if 0 <= k <= 2 {
      assert k == 0 ==> s[k..k + |e|][2] == s[2];
      assert s[k..k + |e|][0] == s[k];
    }
  }

  // ---------------------------------------------------------------- updating twice

  predicate Contains(s: string, p: string) { Index(s, p) >= 0 }

  /** A block whose markers are the first of their kind is replaced by itself. */
  lemma Stable(pre: string, key: string, content: string, post: string)
    requires '\n' !in key && !Contains(Terminated(content), EndMarker(key))
    requires Index(pre + StartMarker(key), StartMarker(key)) == |pre|
    requires !Contains(pre + StartMarker(key), EndMarker(key)) && Occurs(post, EndMarker(key), 0)
    ensures var r := Opened(pre, key, content) + post;
            && Replaceable(r, key) && Index(r, EndMarker(key)) == |Opened(pre, key, content)|
            && Update(Some(r), key, content) == r
  {
    hide StartMarker, EndMarker;
    var s, e, t := StartMarker(key), EndMarker(key), Terminated(content);
    var r := Opened(pre, key, content) + post;
    MarkersHaveNoNewline(key);
    assert r == (pre + s) + "\n" + (t + post);
    IndexInLines(pre + s, t + post, s);
    IndexInLines(pre + s, t + post, e);
    IndexAfterLine(t, post, e);
    assert post[0..|e|] == e;
    assert post == e + post[|e|..];
    OwnIndex(e, post[|e|..]);
    assert r[..|pre|] == pre;
    assert r[|Opened(pre, key, content)|..] == post;
  }

  predicate HasMarker(text: string, key: string) {
    Contains(text, StartMarker(key)) || Contains(text, EndMarker(key))
  }

  lemma AppendedIndex(text: string, rest: string, p: string)
    requires '\n' !in p && p != ""
    ensures Index(Terminated(text) + "\n" + rest, p)
            == if Index(text, p) >= 0 then Index(text, p)
               else if Index(rest, p) >= 0 then |Terminated(text)| + 1 + Index(rest, p) else -1
  {
    IndexInLines(Terminated(text), rest, p);
    NoneInEmpty(p);
    if !EndsLine(text) {
      assert text + "\n" == text + "\n" + "";
      IndexInLines(text, "", p);
    }
  }

  lemma UpdateReplaces(text: string, key: string, content: string)
    requires Replaceable(text, key)
    ensures Update(Some(text), key, content)
            == Opened(text[..Index(text, StartMarker(key))], key, content) + text[Index(text, EndMarker(key))..]
  {
  }

  lemma EndsAfterStart(text: string, key: string, i: nat, j: nat)
    requires Occurs(text, StartMarker(key), i) && Occurs(text, EndMarker(key), j) && i <= j
    ensures j + |EndMarker(key)| > i + |StartMarker(key)|
  {
    hide StartMarker, EndMarker;
    var s, e := StartMarker(key), EndMarker(key);
    if j + |e| <= i + |s| {
      SliceOfSlice(text, i, i + |s|, j - i, j - i + |e|);
      assert j - i + |e| + i == j + |e|;
    }
    OwnMarkersApart(key, j - i);
  }

  lemma SliceOfSlice(t: string, i: nat, j: nat, a: nat, b: nat)
    requires i <= j <= |t| && a <= b <= j - i
    ensures t[i..j][a..b] == t[i + a..i + b]
  {
    forall k | 0 <= k < b - a
      ensures t[i..j][a..b][k] == t[i + a..i + b][k]
    {
      assert t[i..j][a + k] == t[i + (a + k)];
    }
  }

  lemma ReplacedAgain(text: string, key: string, content: string)
    requires '\n' !in key && !Contains(Terminated(content), EndMarker(key)) && Replaceable(text, key)
    ensures var r := Update(Some(text), key, content); Update(Some(r), key, content) == r
  {
    hide StartMarker, EndMarker;
    var s, e := StartMarker(key), EndMarker(key);
    var i, j := Index(text, s), Index(text, e);
    hide Opened, Closed, Update, Terminated;
    assert text[..i] + s == text[..i + |s|];
    IndexInPrefix(text, i + |s|, s);
    IndexInPrefix(text, i + |s|, e);
    EndsAfterStart(text, key, i, j);
    assert text[j..][0..0 + |e|] == e;
    Stable(text[..i], key, content, text[j..]);
    UpdateReplaces(text, key, content);
  }

  lemma AppendedAgain(text: string, key: string, content: string)
    requires '\n' !in key && !Contains(Terminated(content), EndMarker(key)) && !HasMarker(text, key)
    ensures var r := Update(Some(text), key, content); Update(Some(r), key, content) == r
  {
    hide StartMarker, EndMarker;
    var s, e := StartMarker(key), EndMarker(key);
    var pre := Terminated(text) + "\n";
    MarkersHaveNoNewline(key);
    AppendedIndex(text, s, s);
    AppendedIndex(text, s, e);
    OwnIndex(s, "");
    assert s + "" == s;
    if Index(s, e) >= 0 {
      OwnMarkersApart(key, Index(s, e));
    }
    assert (e + "\n")[0..0 + |e|] == e;
    assert Closed(pre, key, content) == Opened(pre, key, content) + (e + "\n");
    Stable(pre, key, content, e + "\n");
  }

  lemma WrittenAgain(key: string, content: string)
    requires '\n' !in key && !Contains(Terminated(content), EndMarker(key))
    ensures var r := Update(None, key, content); Update(Some(r), key, content) == r
  {
    hide StartMarker, EndMarker;
    var s, e := StartMarker(key), EndMarker(key);
    MarkersHaveNoNewline(key);
    assert "" + s == s && s + "" == s;
    OwnIndex(s, "");
    if Index(s, e) >= 0 {
      OwnMarkersApart(key, Index(s, e));
    }
    assert (e + "\n")[0..0 + |e|] == e;
    assert Closed("", key, content) == Opened("", key, content) + (e + "\n");
    Stable("", key, content, e + "\n");
  }

  function Tail(key: string, content: string): string {
    StartMarker(key) + "\n" + Terminated(content) + EndMarker(key) + "\n"
  }

  lemma AppendedText(text: string, key: string, content: string)
    requires !Replaceable(text, key)
    ensures Update(Some(text), key, content) == Terminated(text) + "\n" + Tail(key, content)
  {
  }

  /** The end marker of a fresh block is the first one in it. */
  lemma TailIndex(key: string, content: string)
    requires '\n' !in key && !Contains(Terminated(content), EndMarker(key))
    ensures Index(Tail(key, content), EndMarker(key)) == |StartMarker(key)| + 1 + |Terminated(content)|
    ensures |Tail(key, content)| == |StartMarker(key)| + 1 + |Terminated(content)| + |EndMarker(key)| + 1
  {
    hide StartMarker, EndMarker;
    var s, e, t := StartMarker(key), EndMarker(key), Terminated(content);
    MarkersHaveNoNewline(key);
    assert Tail(key, content) == s + "\n" + (t + (e + "\n"));
    IndexInLines(s, t + (e + "\n"), e);
    if Index(s, e) >= 0 {
      OwnMarkersApart(key, Index(s, e));
    }
    IndexAfterLine(t, e + "\n", e);
    OwnIndex(e, "\n");
  }

  lemma TailStart(key: string, content: string)
    ensures Index(Tail(key, content), StartMarker(key)) == 0
  {
    hide StartMarker, EndMarker, Terminated;
    var s, rest := StartMarker(key), "\n" + Terminated(content) + EndMarker(key) + "\n";
    assert Tail(key, content) == s + rest;
    OwnIndex(s, rest);
  }

  // ---------------------------------------------------------------- stray markers

  /** A start marker nothing closes. */
  predicate StrayStart(text: string, key: string) {
    Contains(text, StartMarker(key)) && !Contains(text, EndMarker(key))
  }

  lemma StrayIndices(text: string, key: string, content: string)
    requires '\n' !in key && !Contains(Terminated(content), EndMarker(key)) && !Replaceable(text, key)
    ensures var r := Update(Some(text), key, content);
            var appended := |Terminated(text)| + 1;
            && appended > |text| && r == Terminated(text) + "\n" + Tail(key, content)
            && Index(r, StartMarker(key))
               == (if Contains(text, StartMarker(key)) then Index(text, StartMarker(key)) else appended)
            && Index(r, EndMarker(key))
               == (if Contains(text, EndMarker(key)) then Index(text, EndMarker(key))
                   else appended + |StartMarker(key)| + 1 + |Terminated(content)|)
  {
    hide StartMarker, EndMarker, Update, Tail, Replaceable;
    var tail := Tail(key, content);
    MarkersHaveNoNewline(key);
    AppendedText(text, key, content);
    AppendedIndex(text, tail, StartMarker(key));
    AppendedIndex(text, tail, EndMarker(key));
    TailIndex(key, content);
    TailStart(key, content);
  }

  /** What a second update makes of a text it could not replace a block in: a
      stray start marker swallows everything behind it, any other stray marker
      gets another block appended, and without markers nothing changes. */
  lemma StrayMarkersExactly(text: string, key: string, content: string)
    requires '\n' !in key && !Contains(Terminated(content), EndMarker(key)) && !Replaceable(text, key)
    ensures var r := Update(Some(text), key, content);
            Update(Some(r), key, content)
            == if StrayStart(text, key) then text[..Index(text, StartMarker(key))] + Tail(key, content)
               else if HasMarker(text, key) then r + "\n" + Tail(key, content)
               else r
  {
    hide StartMarker, EndMarker, Update, Terminated;
    var r := Update(Some(text), key, content);
    StrayIndices(text, key, content);
    if StrayStart(text, key) {
      SwallowedText(text, key, content);
    } else if HasMarker(text, key) {
      assert !Replaceable(r, key);
      AppendedText(r, key, content);
      assert EndsLine(r) by {
        assert r[|r| - 1] == Tail(key, content)[|Tail(key, content)| - 1];
      }
      TerminatedLine(r);
    } else {
      AppendedAgain(text, key, content);
    }
  }

  lemma TerminatedLine(s: string)
    requires EndsLine(s)
    ensures Terminated(s) == s
  {
  }

  lemma SwallowedText(text: string, key: string, content: string)
    requires '\n' !in key && !Contains(Terminated(content), EndMarker(key)) && StrayStart(text, key)
    ensures var r := Update(Some(text), key, content);
            Update(Some(r), key, content) == text[..Index(text, StartMarker(key))] + Tail(key, content)
  {
    hide StartMarker, EndMarker, Update;
    var s, e, t := StartMarker(key), EndMarker(key), Terminated(content);
    var r := Update(Some(text), key, content);
    StrayIndices(text, key, content);
    UpdateReplaces(r, key, content);
    var i, pre := Index(text, s), Terminated(text) + "\n";
    assert r[..i] == text[..i] by {
      hide Tail, Terminated;
      assert r[..i] == Terminated(text)[..i];
      StartsSame(text, i);
    }
    hide Terminated, Replaceable, Contains, Index;
    Regrouped(pre, s, t, e);
    Regrouped(text[..i], s, t, e);
  }

  lemma StartsSame(text: string, i: nat)
    requires i <= |text|
    ensures Terminated(text)[..i] == text[..i]
  {
  }

  lemma Regrouped(pre: string, s: string, t: string, e: string)
    ensures pre + (s + "\n" + t + e + "\n") == pre + s + "\n" + t + (e + "\n")
    ensures (pre + (s + "\n" + t + e + "\n"))[|pre| + |s| + 1 + |t|..] == e + "\n"
  {
    var front := pre + s + "\n" + t;
    assert pre + (s + "\n" + t + e + "\n") == front + (e + "\n");
    assert |front| == |pre| + |s| + 1 + |t|;
  }

  /** The text that was there comes through two updates, as the beginning of the
      file, if and only if no start marker was left unclosed in it, or all that
      follows that marker is already what the block starts with. */
  lemma UserTextSurvivesExactly(text: string, key: string, content: string)
    requires '\n' !in key && !Contains(Terminated(content), EndMarker(key)) && !Replaceable(text, key)
    ensures var r := Update(Some(text), key, content);
            Terminated(text) <= Update(Some(r), key, content)
            <==> !StrayStart(text, key)
                 || Terminated(text)[Index(text, StartMarker(key))..] <= Tail(key, content)
  {
    hide StartMarker, EndMarker, Update, Tail, Replaceable;
    var t, r := Terminated(text), Update(Some(text), key, content);
    AppendedText(text, key, content);
    StrayMarkersExactly(text, key, content);
    if StrayStart(text, key) {
      var i := Index(text, StartMarker(key));
      assert t[..i] == text[..i];
      PrefixAfter(t, i, Tail(key, content));
    }
  }

  lemma PrefixAfter(t: string, i: nat, tail: string)
    requires i <= |t|
    ensures t <= t[..i] + tail <==> t[i..] <= tail
  {
    assert t == t[..i] + t[i..];
    if t[i..] <= tail {
      assert tail == t[i..] + tail[|t| - i..];
    }
    if t <= t[..i] + tail {
      assert forall k :: i <= k < |t| ==> t[k] == (t[..i] + tail)[k];
    }
  }

  /** Two updates of a file whose user left a start marker unclosed on its first
      line: the line below it is gone. */
  lemma StrayStartLoses()
    ensures var text := StartMarker("k") + "\n" + "a: 1\n";
            var r := Update(Some(text), "k", "b: 2\n");
            && Update(Some(r), "k", "b: 2\n") == Tail("k", "b: 2\n")
            && !(Terminated(text) <= Tail("k", "b: 2\n"))
  {
    hide StartMarker, EndMarker, Update, Tail;
    var s, e := StartMarker("k"), EndMarker("k");
    var user, content := "a: 1\n", "b: 2\n";
    var text := s + "\n" + user;
    MarkersHaveNoNewline("k");
    LongMarker();
    IndexInLines(s, user, e);
    if Index(s, e) >= 0 {
      OwnMarkersApart("k", Index(s, e));
    }
    assert text == s + ("\n" + user);
    OwnIndex(s, "\n" + user);
    SwallowedText(text, "k", content);
    assert text[..0] + Tail("k", content) == Tail("k", content);
    TailAt("k", content);
    assert text[|s| + 1] == 'a';
  }

  lemma TailAt(key: string, content: string)
    requires content != ""
    ensures var n := |StartMarker(key)| + 1; |Tail(key, content)| > n && Tail(key, content)[n] == content[0]
  {
    hide StartMarker, EndMarker;
  }

  lemma LongMarker()
    ensures |EndMarker("k")| > 8
  {
  }

  lemma StrayChanges(text: string, key: string, content: string)
    requires !Replaceable(text, key)
    ensures var r := Update(Some(text), key, content);
            && (StrayStart(text, key) ==> HasMarker(text, key))
            && (StrayStart(text, key) ==> text[..Index(text, StartMarker(key))] + Tail(key, content) != r)
            && r + "\n" + Tail(key, content) != r
  {
    hide StartMarker, EndMarker, Update, Tail, Replaceable;
    var r := Update(Some(text), key, content);
    AppendedText(text, key, content);
    assert |r + "\n" + Tail(key, content)| > |r|;
    if StrayStart(text, key) {
      assert |text[..Index(text, StartMarker(key))] + Tail(key, content)| < |r|;
    }
  }

  /** Repeating an update changes nothing exactly when the file was absent, had
      the block's markers in order, or had neither marker. */
  lemma UpdateTwiceExactly(existing: Option<string>, key: string, content: string)
    requires '\n' !in key && !Contains(Terminated(content), EndMarker(key))
    ensures var r := Update(existing, key, content);
            Update(Some(r), key, content) == r
            <==> existing.None? || Replaceable(existing.value, key) || !HasMarker(existing.value, key)
  {
    hide Update, Replaceable, HasMarker, Contains;
    if existing.None? {
      WrittenAgain(key, content);
    } else if Replaceable(existing.value, key) {
      ReplacedAgain(existing.value, key, content);
    } else {
      StrayMarkersExactly(existing.value, key, content);
      StrayChanges(existing.value, key, content);
    }
  }
}
