/** The comment stripper for JSON with comments, against a grammar of segments. */
module JsoncComments {
  import opened Lists

  /** Where a scan from inside a string literal stops: past the closing quote,
      or at or beyond the end of the text when there is none. */
  function StringEnd(s: string, j: nat): (e: nat)
    requires j <= |s| + 1
    ensures j <= e <= |s| + 1
    decreases |s| + 1 - j
  {
    if j >= |s| then j
    else if s[j] == '\\' then (if j + 2 <= |s| then StringEnd(s, j + 2) else j + 2)
    else if s[j] == '"' then j + 1
    else StringEnd(s, j + 1)
  }

  function LineEnd(s: string, i: nat): (e: nat)
    requires i <= |s|
    ensures i <= e <= |s|
    decreases |s| - i
  {
    if i == |s| || s[i] == '\n' then i else LineEnd(s, i + 1)
  }

  /** Past the first closing mark at or after `i`, or the end of the text. */
  function BlockEnd(s: string, i: nat): (e: nat)
    requires i <= |s|
    ensures i <= e <= |s|
    decreases |s| - i
  {
    if i + 1 >= |s| then |s|
    else if s[i] == '*' && s[i + 1] == '/' then i + 2
    else BlockEnd(s, i + 1)
  }

  predicate Opens(s: string, i: nat, mark: char) {
    i + 1 < |s| && s[i] == '/' && s[i + 1] == mark
  }

  function Prepend(kept: string, rest: Option<string>): Option<string> {
    if rest.Some? then Some(kept + rest.value) else None
  }

  /** The text from `i` on without comments; None when an unterminated string
      ends in a backslash, where the program slices past the end of its input. */
  function StripFrom(s: string, i: nat): Option<string>
    requires i <= |s|
    decreases |s| - i
  {
    if i == |s| then Some("")
    else if s[i] == '"' then
      var e := StringEnd(s, i + 1);
      if e > |s| then None else Prepend(s[i..e], StripFrom(s, e))
    else if Opens(s, i, '/') then StripFrom(s, LineEnd(s, i + 2))
    else if Opens(s, i, '*') then StripFrom(s, BlockEnd(s, i + 2))
    else Prepend([s[i]], StripFrom(s, i + 1))
  }

  function Strip(s: string): Option<string> { StripFrom(s, 0) }

  lemma PrependTwice(a: string, b: string, rest: Option<string>)
    ensures Prepend(a, Prepend(b, rest)) == Prepend(a + b, rest)
  {
    if rest.Some? {
      assert a + (b + rest.value) == (a + b) + rest.value;
    }
  }

  lemma PrependNothing(rest: Option<string>)
    ensures Prepend("", rest) == rest
  {
    if rest.Some? {
      assert "" + rest.value == rest.value;
    }
  }

  /** The scanner itself: one index over the input, one output buffer. */
  method StripComments(src: string) returns (out: Option<string>)
    ensures out == Strip(src)
  {
    var buffer := "";
    var i := 0;
    PrependNothing(StripFrom(src, 0));
    while i < |src|
      invariant 0 <= i <= |src|
      invariant Strip(src) == Prepend(buffer, StripFrom(src, i))
      decreases |src| - i
    {
      if src[i] == '"' {
        var j := i + 1;
        while j < |src|
          invariant i < j <= |src| + 1
          invariant StringEnd(src, i + 1) == StringEnd(src, j)
          decreases |src| + 1 - j
        {
          if src[j] == '\\' {
            j := j + 2;
            continue;
          }
          if src[j] == '"' {
            j := j + 1;
            break;
          }
          j := j + 1;
        }
        assert StringEnd(src, i + 1) == j;
        if j > |src| {
          return None;
        }
        PrependTwice(buffer, src[i..j], StripFrom(src, j));
        buffer := buffer + src[i..j];
        i := j;
      } else if i + 1 < |src| && src[i] == '/' && src[i + 1] == '/' {
        var start := i + 2;
        while i < |src| && src[i] != '\n'
          invariant start - 2 <= i <= |src|
          invariant LineEnd(src, start) == LineEnd(src, if i < start then start else i)
          decreases |src| - i
        {
          i := i + 1;
        }
      } else if i + 1 < |src| && src[i] == '/' && src[i + 1] == '*' {
        i := i + 2;
        var start := i;
        while i + 1 < |src| && !(src[i] == '*' && src[i + 1] == '/')
          invariant start <= i <= |src|
          invariant BlockEnd(src, start) == BlockEnd(src, i)
          decreases |src| - i
        {
          i := i + 1;
        }
        i := if i + 2 < |src| then i + 2 else |src|;
      } else {
        PrependTwice(buffer, [src[i]], StripFrom(src, i + 1));
        buffer := buffer + [src[i]];
        i := i + 1;
      }
    }
    assert buffer + "" == buffer;
    return Some(buffer);
  }

  // ---------------------------------------------------------------- the grammar

  /** Pieces a commented document is built from. `Quoted` holds the text between
      the quotes of a string literal. */
  datatype Segment = Plain(text: string) | Quoted(text: string) | LineComment(text: string) | BlockComment(text: string)

  /** Section 7 of RFC 8259: no bare quote, and a backslash takes the next
      character with it. */
  predicate IsStringBody(b: string) {
    b == ""
    || (b[0] == '\\' && |b| >= 2 && IsStringBody(b[2..]))
    || (b[0] != '\\' && b[0] != '"' && IsStringBody(b[1..]))
  }

  predicate Closes(s: string, k: nat) {
    k + 1 < |s| && s[k] == '*' && s[k + 1] == '/'
  }

  /** Segments in front of a tail: plain text opens no string and no comment,
      not even together with what follows; a line comment runs up to a newline,
      which stays, or to the end. */
  predicate WellFormedBefore(segs: seq<Segment>, tail: string) {
    segs == []
    || (WellFormedBefore(segs[1..], tail)
        && var rest := Render(segs[1..]) + tail;
           match segs[0]
           case Plain(t) =>
             '"' !in t && forall k: nat :: k < |t| ==> !Opens(t + rest, k, '/') && !Opens(t + rest, k, '*')
           case Quoted(t) => IsStringBody(t)
           case LineComment(t) => '\n' !in t && (rest == "" || rest[0] == '\n')
           case BlockComment(t) => forall k: nat :: k < |t| ==> !Closes(t, k))
  }

  function Written(seg: Segment): string {
    match seg
    case Plain(t) => t
    case Quoted(t) => "\"" + t + "\""
    case LineComment(t) => "//" + t
    case BlockComment(t) => "/*" + t + "*/"
  }

  function Render(segs: seq<Segment>): string {
    if segs == [] then "" else Written(segs[0]) + Render(segs[1..])
  }

  /** The same document without its comments. */
  function Uncommented(segs: seq<Segment>): string {
    if segs == [] then ""
    else (if segs[0].Plain? || segs[0].Quoted? then Written(segs[0]) else "") + Uncommented(segs[1..])
  }

  // ---------------------------------------------------------------- scanning a prefix

  /** Scanning depends only on the text from the index on. */
  lemma {:induction false} StripShift(p: string, s: string, i: nat)
    requires i <= |s|
    ensures StripFrom(p + s, |p| + i) == StripFrom(s, i)
    decreases |s| - i
  {
    if i < |s| {
      var t := p + s;
      assert t[|p| + i] == s[i];
      if s[i] == '"' {
        StringShift(p, s, i + 1);
        var e := StringEnd(s, i + 1);
        if e <= |s| {
          assert t[|p| + i..|p| + e] == s[i..e];
          StripShift(p, s, e);
        }
      } else if Opens(s, i, '/') {
        LineShift(p, s, i + 2);
        StripShift(p, s, LineEnd(s, i + 2));
      } else if Opens(s, i, '*') {
        BlockShift(p, s, i + 2);
        StripShift(p, s, BlockEnd(s, i + 2));
      } else {
        StripShift(p, s, i + 1);
      }
    }
  }

  lemma {:induction false} StringShift(p: string, s: string, j: nat)
    requires j <= |s| + 1
    ensures StringEnd(p + s, |p| + j) == |p| + StringEnd(s, j)
    decreases |s| + 1 - j
  {
    if j < |s| {
      assert (p + s)[|p| + j] == s[j];
      if s[j] == '\\' {
        if j + 2 <= |s| {
          StringShift(p, s, j + 2);
        }
      } else if s[j] != '"' {
        StringShift(p, s, j + 1);
      }
    }
  }

  lemma {:induction false} LineShift(p: string, s: string, i: nat)
    requires i <= |s|
    ensures LineEnd(p + s, |p| + i) == |p| + LineEnd(s, i)
    decreases |s| - i
  {
    if i < |s| && s[i] != '\n' {
      LineShift(p, s, i + 1);
    }
  }

  lemma {:induction false} BlockShift(p: string, s: string, i: nat)
    requires i <= |s|
    ensures BlockEnd(p + s, |p| + i) == |p| + BlockEnd(s, i)
    decreases |s| - i
  {
    if i + 1 < |s| && !Closes(s, i) {
      BlockShift(p, s, i + 1);
    }
  }

  /** A string literal ends at its own closing quote, whatever follows. */
  lemma {:induction false} BodyEnds(s: string, j: nat, b: string)
    requires IsStringBody(b) && j + |b| < |s| && s[j..j + |b|] == b && s[j + |b|] == '"'
    ensures StringEnd(s, j) == j + |b| + 1
    decreases |b|
  {
    if b != "" {
      assert s[j] == b[0];
      var n := if b[0] == '\\' then 2 else 1;
      assert s[j + n..j + n + |b[n..]|] == b[n..];
      BodyEnds(s, j + n, b[n..]);
    }
  }

  lemma {:induction false} LineEnds(s: string, i: nat, n: nat)
    requires i <= n <= |s| && (n < |s| ==> s[n] == '\n') && forall k :: i <= k < n ==> s[k] != '\n'
    ensures LineEnd(s, i) == n
    decreases n - i
  {
    if i < n {
      LineEnds(s, i + 1, n);
    }
  }

  lemma {:induction false} BlockEnds(s: string, i: nat, n: nat)
    requires i <= n && Closes(s, n) && forall k :: i <= k < n ==> !Closes(s, k)
    ensures BlockEnd(s, i) == n + 2
    decreases n - i
  {
    if i < n {
      assert !Closes(s, i);
      BlockEnds(s, i + 1, n);
    }
  }

  /** Plain text is copied. */
  lemma {:induction false} PlainCopied(t: string, s: string, i: nat)
    requires i <= |t| && '"' !in t
    requires forall k: nat :: k < |t| ==> !Opens(t + s, k, '/') && !Opens(t + s, k, '*')
    ensures StripFrom(t + s, i) == Prepend(t[i..], StripFrom(t + s, |t|))
    decreases |t| - i
  {
    if i == |t| {
      PrependNothing(StripFrom(t + s, |t|));
    } else {
      assert (t + s)[i] == t[i] && t[i] in t;
      PlainCopied(t, s, i + 1);
      PrependTwice([t[i]], t[i + 1..], StripFrom(t + s, |t|));
      assert [t[i]] + t[i + 1..] == t[i..];
    }
  }

  // ---------------------------------------------------------------- the theorems

  lemma QuotedCopied(t: string, rest: string)
    requires IsStringBody(t)
    ensures var w := "\"" + t + "\""; StripFrom(w + rest, 0) == Prepend(w, StripFrom(w + rest, |w|))
  {
    var w := "\"" + t + "\"";
    var s := w + rest;
    assert s[1..1 + |t|] == t && s[1 + |t|] == '"';
    BodyEnds(s, 1, t);
    assert s[0..|w|] == w;
  }

  lemma LineDropped(t: string, rest: string)
    requires '\n' !in t && (rest == "" || rest[0] == '\n')
    ensures var w := "//" + t; StripFrom(w + rest, 0) == StripFrom(w + rest, |w|)
  {
    var w := "//" + t;
    var s := w + rest;
    forall k | 2 <= k < |w|
      ensures s[k] != '\n'
    {
      assert s[k] == t[k - 2] && t[k - 2] in t;
    }
    assert rest != "" ==> s[|w|] == rest[0];
    LineEnds(s, 2, |w|);
    assert s[0] == '/' && s[1] == '/';
  }

  lemma BlockDropped(t: string, rest: string)
    requires forall k :: 0 <= k < |t| ==> !Closes(t, k)
    ensures var w := "/*" + t + "*/"; StripFrom(w + rest, 0) == StripFrom(w + rest, |w|)
  {
    var w := "/*" + t + "*/";
    var s := w + rest;
    forall k | 2 <= k < |t| + 2
      ensures !Closes(s, k)
    {
      assert s[k] == t[k - 2] && !Closes(t, k - 2);
      assert s[k + 1] == if k - 1 < |t| then t[k - 1] else '*';
    }
    assert s[|t| + 2] == '*' && s[|t| + 3] == '/';
    BlockEnds(s, 2, |t| + 2);
    assert s[0] == '/' && s[1] == '*';
  }

  lemma OneSegment(segs: seq<Segment>, tail: string)
    requires segs != [] && WellFormedBefore(segs, tail)
    ensures var w, rest := Written(segs[0]), Render(segs[1..]) + tail;
            StripFrom(w + rest, 0)
            == Prepend(if segs[0].Plain? || segs[0].Quoted? then w else "", StripFrom(w + rest, |w|))
  {
    hide StripFrom, Prepend, Closes, IsStringBody, Render, Opens;
    var w, rest := Written(segs[0]), Render(segs[1..]) + tail;
    PrependNothing(StripFrom(w + rest, |w|));
    match segs[0] {
      case Plain(t) =>
        PlainCopied(t, rest, 0);
        assert t[0..] == t;
      case Quoted(t) => QuotedCopied(t, rest);
      case LineComment(t) => LineDropped(t, rest);
      case BlockComment(t) => BlockDropped(t, rest);
    }
  }

  /** A document that starts with segments is stripped to exactly those that are
      not comments, followed by what its tail is stripped to. */
  lemma {:induction false} StripsSegments(segs: seq<Segment>, tail: string)
    requires WellFormedBefore(segs, tail)
    ensures Strip(Render(segs) + tail) == Prepend(Uncommented(segs), Strip(tail))
  {
    hide StripFrom, Written;
    if segs == [] {
      assert Render(segs) + tail == tail;
      PrependNothing(Strip(tail));
    } else {
      var w, rest := Written(segs[0]), Render(segs[1..]) + tail;
      StripsSegments(segs[1..], tail);
      OneSegment(segs, tail);
      StripShift(w, rest, 0);
      assert Render(segs) + tail == w + rest;
      PrependTwice(if segs[0].Plain? || segs[0].Quoted? then w else "", Uncommented(segs[1..]), Strip(tail));
    }
  }

  /** What is left of a text contains no comment any more: stripping again
      changes nothing, whenever stripping is defined. */
  lemma {:induction false} StripTwice(s: string, i: nat)
    requires i <= |s| && StripFrom(s, i).Some?
    ensures var t := StripFrom(s, i).value;
            && Strip(t) == Some(t)
            && (t != "" && i < |s| && s[i] != '/' ==> t[0] == s[i])
    decreases |s| - i
  {
    if i < |s| {
      if s[i] == '"' {
        var e := StringEnd(s, i + 1);
        StripTwice(s, e);
        KeptString(s[i..e], StripFrom(s, e).value, s, i, e);
      } else if Opens(s, i, '/') {
        StripTwice(s, LineEnd(s, i + 2));
      } else if Opens(s, i, '*') {
        StripTwice(s, BlockEnd(s, i + 2));
      } else {
        StripTwice(s, i + 1);
        KeptChar(s, i);
      }
    }
  }

  lemma KeptChar(s: string, i: nat)
    requires i < |s| && s[i] != '"' && !Opens(s, i, '/') && !Opens(s, i, '*') && StripFrom(s, i + 1).Some?
    requires var u := StripFrom(s, i + 1).value;
             Strip(u) == Some(u) && (u != "" && i + 1 < |s| && s[i + 1] != '/' ==> u[0] == s[i + 1])
    ensures var t := [s[i]] + StripFrom(s, i + 1).value; Strip(t) == Some(t)
  {
    var u := StripFrom(s, i + 1).value;
    var t := [s[i]] + u;
    StripShift([s[i]], u, 0);
    assert !Opens(t, 0, '/') && !Opens(t, 0, '*');
  }

  lemma KeptString(w: string, u: string, s: string, i: nat, e: nat)
    requires i < e <= |s| && s[i] == '"' && e == StringEnd(s, i + 1) && w == s[i..e] && Strip(u) == Some(u)
    requires e == |s| ==> u == ""
    ensures Strip(w + u) == Some(w + u)
  {
    hide StripFrom, StringEnd;
    assert (w + u)[..e - i] == w;
    StringSame(s, w + u, i, i + 1, e);
    StripShift(w, u, 0);
    LiteralFirst(w, u);
  }

  lemma LiteralFirst(w: string, u: string)
    requires w != "" && w[0] == '"' && StringEnd(w + u, 1) == |w| && StripFrom(w + u, |w|) == Some(u)
    ensures Strip(w + u) == Some(w + u)
  {
  }

  /** A literal keeps its end when it is copied out. */
  lemma {:induction false} StringSame(s: string, t: string, i: nat, j: nat, e: nat)
    requires i < j <= e <= |s| && e == StringEnd(s, j)
    requires e - i <= |t| && t[..e - i] == s[i..e] && (e == |s| ==> |t| == e - i)
    ensures StringEnd(t, j - i) == e - i
    decreases e - j
  {
    if j < e {
      assert t[j - i] == t[..e - i][j - i] == s[j];
      if s[j] == '\\' {
        StringSame(s, t, i, j + 2, e);
      } else if s[j] != '"' {
        StringSame(s, t, i, j + 1, e);
      }
    }
  }

  // ---------------------------------------------------------------- where stripping is undefined

  /** Whole segments, then a string literal that the text ends in the middle of
      an escape: its last backslash has nothing to escape. */
  predicate DanglesAfter(s: string, segs: seq<Segment>, body: string) {
    && WellFormedBefore(segs, "\"" + body + "\\") && IsStringBody(body)
    && s == Render(segs) + ("\"" + body + "\\")
  }

  lemma {:induction false} BodyRunsPast(b: string, s: string, j: nat)
    requires IsStringBody(b) && j + |b| + 1 == |s| && s[j..j + |b|] == b && s[|s| - 1] == '\\'
    ensures StringEnd(s, j) == |s| + 1
    decreases |b|
  {
    if b != "" {
      assert s[j] == b[0];
      var n := if b[0] == '\\' then 2 else 1;
      assert s[j + n..j + n + |b[n..]|] == b[n..];
      BodyRunsPast(b[n..], s, j + n);
    }
  }

  lemma {:induction false} PastIsBody(s: string, j: nat)
    requires j <= |s| && StringEnd(s, j) > |s|
    ensures j < |s| && s[|s| - 1] == '\\' && IsStringBody(s[j..|s| - 1])
    decreases |s| - j
  {
    if s[j] == '\\' {
      if j + 2 <= |s| {
        PastIsBody(s, j + 2);
        assert s[j..|s| - 1][2..] == s[j + 2..|s| - 1];
      }
    } else if s[j] != '"' {
      PastIsBody(s, j + 1);
      assert s[j..|s| - 1][1..] == s[j + 1..|s| - 1];
    }
  }

  lemma {:induction false} ClosedIsBody(s: string, j: nat)
    requires j <= |s| && StringEnd(s, j) < |s|
    ensures var e := StringEnd(s, j); j < e && s[e - 1] == '"' && IsStringBody(s[j..e - 1])
    decreases |s| - j
  {
    var e := StringEnd(s, j);
    if s[j] == '\\' {
      ClosedIsBody(s, j + 2);
      assert s[j..e - 1][2..] == s[j + 2..e - 1];
    } else if s[j] != '"' {
      ClosedIsBody(s, j + 1);
      assert s[j..e - 1][1..] == s[j + 1..e - 1];
    }
  }

  lemma {:induction false} LineStops(s: string, i: nat)
    requires i <= |s|
    ensures var e := LineEnd(s, i); (e < |s| ==> s[e] == '\n') && '\n' !in s[i..e]
    decreases |s| - i
  {
    if i < |s| && s[i] != '\n' {
      LineStops(s, i + 1);
      assert s[i..LineEnd(s, i)] == [s[i]] + s[i + 1..LineEnd(s, i)];
    }
  }

  lemma {:induction false} BlockStops(s: string, i: nat)
    requires i <= |s|
    ensures var e := BlockEnd(s, i);
            e < |s| ==> i + 2 <= e && Closes(s, e - 2) && forall k: nat :: i <= k < e - 2 ==> !Closes(s, k)
    decreases |s| - i
  {
    if i + 1 < |s| && !Closes(s, i) {
      BlockStops(s, i + 1);
    }
  }

  predicate IsSegment(seg: Segment, next: char) {
    match seg
    case Plain(t) => |t| == 1 && t[0] != '"'
    case Quoted(t) => IsStringBody(t)
    case LineComment(t) => '\n' !in t && next == '\n'
    case BlockComment(t) => forall k: nat :: k < |t| ==> !Closes(t, k)
  }

  lemma CutString(s: string, e: nat) returns (seg: Segment)
    requires s != "" && s[0] == '"' && e == StringEnd(s, 1) < |s|
    ensures 0 < e && s[..e] == Written(seg) && IsSegment(seg, s[e]) && !seg.Plain?
  {
    ClosedIsBody(s, 1);
    hide IsStringBody, StringEnd;
    seg := Quoted(s[1..e - 1]);
  }

  lemma CutLine(s: string, e: nat) returns (seg: Segment)
    requires Opens(s, 0, '/') && e == LineEnd(s, 2) < |s|
    ensures 0 < e && s[..e] == Written(seg) && IsSegment(seg, s[e]) && !seg.Plain?
  {
    LineStops(s, 2);
    hide LineEnd;
    seg := LineComment(s[2..e]);
  }

  lemma CutBlock(s: string, e: nat) returns (seg: Segment)
    requires Opens(s, 0, '*') && e == BlockEnd(s, 2) < |s|
    ensures 0 < e && s[..e] == Written(seg) && IsSegment(seg, s[e]) && !seg.Plain?
  {
    BlockStops(s, 2);
    hide BlockEnd;
    seg := BlockComment(s[2..e - 2]);
    forall k: nat {:trigger Closes(seg.text, k)} | k < |seg.text|
      ensures !Closes(seg.text, k)
    {
      assert !Closes(s, k + 2);
    }
  }

  lemma RestUndefined(s: string, e: nat)
    requires e <= |s| && StripFrom(s, e).None?
    ensures e < |s| && Strip(s[e..]).None?
  {
    assert s == s[..e] + s[e..];
    StripShift(s[..e], s[e..], 0);
  }

  /** Whatever follows the first segment of a text that cannot be stripped
      cannot be stripped either. */
  lemma FirstSegment(s: string) returns (seg: Segment, e: nat)
    requires s != "" && Strip(s).None? && !(s[0] == '"' && StringEnd(s, 1) > |s|)
    ensures 0 < e < |s| && s[..e] == Written(seg) && Strip(s[e..]).None? && IsSegment(seg, s[e])
    ensures seg.Plain? ==> !Opens(s, 0, '/') && !Opens(s, 0, '*')
  {
    e := if s[0] == '"' then StringEnd(s, 1) else if Opens(s, 0, '/') then LineEnd(s, 2)
         else if Opens(s, 0, '*') then BlockEnd(s, 2) else 1;
    assert StripFrom(s, e).None?;
    hide StripFrom, StringEnd, LineEnd, BlockEnd, IsStringBody;
    RestUndefined(s, e);
    if s[0] == '"' {
      seg := CutString(s, e);
    } else if Opens(s, 0, '/') {
      seg := CutLine(s, e);
    } else if Opens(s, 0, '*') {
      seg := CutBlock(s, e);
    } else {
      seg := Plain(s[..1]);
    }
  }

  lemma {:induction false} FindDangling(s: string) returns (segs: seq<Segment>, body: string)
    requires Strip(s).None?
    ensures DanglesAfter(s, segs, body)
    decreases |s|
  {
    if s[0] == '"' && StringEnd(s, 1) > |s| {
      segs, body := [], s[1..|s| - 1];
      DanglingAlone(s);
    } else {
      var seg, e := FirstSegment(s);
      hide StripFrom, IsStringBody, StringEnd;
      segs, body := FindDangling(s[e..]);
      OneMore(s, e, seg, segs, body);
      segs := [seg] + segs;
    }
  }

  lemma DanglingAlone(s: string)
    requires s != "" && s[0] == '"' && StringEnd(s, 1) > |s|
    ensures |s| > 1 && DanglesAfter(s, [], s[1..|s| - 1])
  {
    PastIsBody(s, 1);
    hide IsStringBody, StringEnd;
    var body := s[1..|s| - 1];
    assert s == "" + ("\"" + body + "\\");
  }

  lemma OneMore(s: string, e: nat, seg: Segment, segs: seq<Segment>, body: string)
    requires 0 < e < |s| && s[..e] == Written(seg) && IsSegment(seg, s[e]) && DanglesAfter(s[e..], segs, body)
    requires seg.Plain? ==> !Opens(s, 0, '/') && !Opens(s, 0, '*')
    ensures DanglesAfter(s, [seg] + segs, body)
  {
    hide IsStringBody, Closes;
    var tail := "\"" + body + "\\";
    assert s == s[..e] + s[e..];
    assert ([seg] + segs)[1..] == segs;
    assert Render([seg] + segs) + tail == Written(seg) + (Render(segs) + tail);
  }

  /** Exactly where stripping is undefined: whole segments are followed by an
      unterminated string literal that ends in a lone backslash. */
  lemma UndefinedExactly(s: string)
    ensures Strip(s) == None <==> exists segs, body :: DanglesAfter(s, segs, body)
  {
    hide Strip;
    if Strip(s).None? {
      var segs, body := FindDangling(s);
    }
    forall segs, body | DanglesAfter(s, segs, body)
      ensures Strip(s) == None
    {
      DanglingUndefined(s, segs, body);
    }
  }

  lemma DanglingUndefined(s: string, segs: seq<Segment>, body: string)
    requires DanglesAfter(s, segs, body)
    ensures Strip(s) == None
  {
    var tail := "\"" + body + "\\";
    assert tail[1..1 + |body|] == body;
    BodyRunsPast(body, tail, 1);
    StripsSegments(segs, tail);
  }

  lemma UnterminatedEscape()
    ensures Strip("\"\\") == None
  {
  }
}
