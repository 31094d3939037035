/** A shared file as a document: lines of user text and one block per profile.
    Updating the text is updating one block of the document. */
module ManagedDocument {
  import opened Lists
  import opened ManagedBlock

  datatype Piece = Text(text: string) | Owned(key: string, body: string)

  function Written(p: Piece): string {
    if p.Text? then p.text else StartMarker(p.key) + "\n" + p.body + EndMarker(p.key) + "\n"
  }

  function Render(doc: seq<Piece>): string {
    if doc == [] then "" else Written(doc[0]) + Render(doc[1..])
  }

  /** Every piece is a run of whole lines. */
  predicate Lines(p: Piece) {
    if p.Text? then EndsLine(p.text) else EndsLine(p.body) && '\n' !in p.key
  }

  predicate AllLines(doc: seq<Piece>) {
    forall i :: 0 <= i < |doc| ==> Lines(doc[i])
  }

  /** Block `key`'s markers occur nowhere but at its own block. */
  predicate Clean(doc: seq<Piece>, key: string) {
    forall i :: 0 <= i < |doc| ==>
      if doc[i].Owned? && doc[i].key == key then !Contains(doc[i].body, EndMarker(key))
      else !HasMarker(Written(doc[i]), key)
  }

  predicate OwnedAt(doc: seq<Piece>, key: string, i: int) {
    0 <= i < |doc| && doc[i].Owned? && doc[i].key == key
  }

  predicate OnePerKey(doc: seq<Piece>) {
    forall i, j :: 0 <= i < j < |doc| && doc[i].Owned? && doc[j].Owned? ==> doc[i].key != doc[j].key
  }

  function Find(doc: seq<Piece>, key: string): (i: int)
    ensures if i < 0 then forall j :: !OwnedAt(doc, key, j) else OwnedAt(doc, key, i)
  {
    if doc == [] then -1
    else if doc[|doc| - 1].Owned? && doc[|doc| - 1].key == key then |doc| - 1
    else
      assert forall j :: OwnedAt(doc, key, j) ==> OwnedAt(doc[..|doc| - 1], key, j);
      Find(doc[..|doc| - 1], key)
  }

  /** The document with block `key` holding `content`: in place, or at the end. */
  function Put(doc: seq<Piece>, key: string, content: string): seq<Piece> {
    var i := Find(doc, key);
    if i >= 0 then doc[i := Owned(key, Terminated(content))]
    else doc + [Text("\n"), Owned(key, Terminated(content))]
  }

  lemma JoinAssociates(a: string, b: string, c: string)
    ensures (a + b) + c == a + (b + c)
  {
  }

  lemma {:induction false} RenderAppend(a: seq<Piece>, b: seq<Piece>)
    ensures Render(a + b) == Render(a) + Render(b)
  {
    hide Written;
    if a == [] {
      assert a + b == b;
      assert "" + Render(b) == Render(b);
    } else {
      RenderAppend(a[1..], b);
      assert (a + b)[1..] == a[1..] + b;
      JoinAssociates(Written(a[0]), Render(a[1..]), Render(b));
    }
  }

  lemma {:induction false} RenderLines(doc: seq<Piece>)
    requires AllLines(doc)
    ensures if doc == [] then Render(doc) == "" else EndsLine(Render(doc))
  {
    if doc != [] {
      hide StartMarker, EndMarker;
      assert Lines(doc[0]);
      RenderLines(doc[1..]);
    }
  }

  /** Text whose pieces have no marker has none either. */
  lemma {:induction false} RenderFree(doc: seq<Piece>, p: string)
    requires AllLines(doc) && '\n' !in p && p != ""
    requires forall i :: 0 <= i < |doc| ==> !Contains(Written(doc[i]), p)
    ensures Index(Render(doc), p) == -1
  {
    hide StartMarker, EndMarker, Index;
    if doc == [] {
      NoneInEmpty(p);
    } else {
      assert Lines(doc[0]);
      RenderFree(doc[1..], p);
      IndexAfterLine(Written(doc[0]), Render(doc[1..]), p);
      NegativeIsNone(Written(doc[0]), p);
    }
  }

  lemma NegativeIsNone(s: string, p: string)
    ensures Index(s, p) >= -1
  {
  }

  lemma UpdateAbsent(doc: seq<Piece>, key: string, content: string)
    requires doc != [] && AllLines(doc) && Clean(doc, key) && Find(doc, key) < 0 && '\n' !in key
    ensures Update(Some(Render(doc)), key, content) == Render(Put(doc, key, content))
  {
    hide StartMarker, EndMarker, Index, Update;
    MarkersHaveNoNewline(key);
    forall i | 0 <= i < |doc|
      ensures !HasMarker(Written(doc[i]), key)
    {
      assert !OwnedAt(doc, key, i);
    }
    RenderFree(doc, StartMarker(key));
    RenderFree(doc, EndMarker(key));
    RenderLines(doc);
    AppendedText(Render(doc), key, content);
    RenderAppend(doc, [Text("\n"), Owned(key, Terminated(content))]);
    var block := [Owned(key, Terminated(content))];
    assert [Text("\n"), Owned(key, Terminated(content))][1..] == block && block[1..] == [];
    assert Render(block) == Tail(key, content) + "";
    assert Render(doc) + "\n" + Tail(key, content) == Render(doc) + ("\n" + Tail(key, content));
  }

  /** Where a present block's markers are found. */
  lemma FoundAt(before: string, key: string, body: string, after: string)
    requires '\n' !in key && EndsLine(body) && !Contains(body, EndMarker(key))
    requires (before == "" || EndsLine(before)) && !HasMarker(before, key)
    ensures var s := before + (Written(Owned(key, body)) + after);
            && Index(s, StartMarker(key)) == |before|
            && Index(s, EndMarker(key)) == |before| + |StartMarker(key)| + 1 + |body|
  {
    hide StartMarker, EndMarker, Index;
    var s, e := StartMarker(key), EndMarker(key);
    MarkersHaveNoNewline(key);
    var rest := Written(Owned(key, body)) + after;
    BlockParts(s, body, e, after);
    OwnIndex(s, "\n" + (body + (e + ("\n" + after))));
    IndexAfterLine(before, rest, s);
    IndexAfterLine(before, rest, e);
    IndexInLines(s, body + (e + ("\n" + after)), e);
    NoOwnEnd(key);
    IndexAfterLine(body, e + ("\n" + after), e);
    OwnIndex(e, "\n" + after);
  }

  lemma BlockParts(s: string, body: string, e: string, after: string)
    ensures (s + "\n" + body + e + "\n") + after == s + ("\n" + (body + (e + ("\n" + after))))
    ensures s + ("\n" + (body + (e + ("\n" + after)))) == s + "\n" + (body + (e + ("\n" + after)))
  {
  }

  lemma NoOwnEnd(key: string)
    ensures Index(StartMarker(key), EndMarker(key)) < 0
  {
    OwnMarkersApart(key, Index(StartMarker(key), EndMarker(key)));
  }

  lemma UpdatePresent(doc: seq<Piece>, key: string, content: string)
    requires AllLines(doc) && Clean(doc, key) && OnePerKey(doc) && Find(doc, key) >= 0
    ensures Update(Some(Render(doc)), key, content) == Render(Put(doc, key, content))
  {
    hide StartMarker, EndMarker, Index, Terminated;
    var i := Find(doc, key);
    var pre, post, body := doc[..i], doc[i + 1..], doc[i].body;
    assert Lines(doc[i]);
    MarkersHaveNoNewline(key);
    RenderFree(pre, StartMarker(key));
    RenderFree(pre, EndMarker(key));
    RenderLines(pre);
    SplitRender(doc, i, doc[i]);
    assert doc[i := doc[i]] == doc;
    SplitRender(doc, i, Owned(key, Terminated(content)));
    FoundAt(Render(pre), key, body, Render(post));
    ReplaceMiddle(Render(pre), key, body, content, Render(post));
  }

  lemma SplitRender(doc: seq<Piece>, i: nat, p: Piece)
    requires i < |doc|
    ensures Render(doc[i := p]) == Render(doc[..i]) + (Written(p) + Render(doc[i + 1..]))
  {
    hide Written;
    assert doc[i := p] == doc[..i] + ([p] + doc[i + 1..]);
    RenderAppend(doc[..i], [p] + doc[i + 1..]);
    assert ([p] + doc[i + 1..])[1..] == doc[i + 1..];
  }

  lemma ReplaceMiddle(before: string, key: string, body: string, content: string, after: string)
    requires var s := before + (Written(Owned(key, body)) + after);
             && Index(s, StartMarker(key)) == |before|
             && Index(s, EndMarker(key)) == |before| + |StartMarker(key)| + 1 + |body|
    ensures Update(Some(before + (Written(Owned(key, body)) + after)), key, content)
            == before + (Written(Owned(key, Terminated(content))) + after)
  {
    hide StartMarker, EndMarker, Index, Terminated;
    var s, e := StartMarker(key), EndMarker(key);
    var text := before + (Written(Owned(key, body)) + after);
    var j := |before| + |s| + 1 + |body|;
    TextParts(before, s, body, e, after);
    assert Replaceable(text, key);
    assert Update(Some(text), key, content) == Opened(before, key, content) + (e + "\n" + after);
    TextParts(before, s, Terminated(content), e, after);
  }

  lemma TextParts(before: string, s: string, body: string, e: string, after: string)
    ensures var text := before + ((s + "\n" + body + e + "\n") + after);
            && text == (before + s + "\n" + body) + (e + "\n" + after)
            && text[..|before|] == before
            && text[|before| + |s| + 1 + |body|..] == e + "\n" + after
  {
  }

  /** Updating the text of a document is updating the document. */
  lemma UpdateIsPut(doc: seq<Piece>, key: string, content: string)
    requires doc != [] && AllLines(doc) && Clean(doc, key) && OnePerKey(doc) && '\n' !in key
    ensures Update(Some(Render(doc)), key, content) == Render(Put(doc, key, content))
  {
    if Find(doc, key) < 0 {
      UpdateAbsent(doc, key, content);
    } else {
      UpdatePresent(doc, key, content);
    }
  }

  /** The first write makes a document of one block. */
  lemma FirstWrite(key: string, content: string)
    ensures Update(None, key, content) == Render([Owned(key, Terminated(content))])
  {
  }

  /** A text without the block's markers is updated as the one-piece document
      its last line, terminated, makes it. */
  lemma TextIsADocument(text: string, key: string, content: string)
    requires '\n' !in key && !HasMarker(text, key)
    ensures Lines(Text(Terminated(text))) && Clean([Text(Terminated(text))], key)
    ensures Update(Some(text), key, content) == Render(Put([Text(Terminated(text))], key, content))
  {
    hide StartMarker, EndMarker, Update, Index;
    MarkersHaveNoNewline(key);
    TerminatedHasNone(text, StartMarker(key));
    TerminatedHasNone(text, EndMarker(key));
    var doc := [Text(Terminated(text))];
    assert doc[1..] == [];
    assert Render(doc) == Terminated(text) + "" == Terminated(text);
    assert Terminated(Terminated(text)) == Terminated(text);
    AppendedText(text, key, content);
    AppendedText(Terminated(text), key, content);
    UpdateIsPut(doc, key, content);
  }

  lemma TerminatedHasNone(text: string, p: string)
    requires '\n' !in p && p != "" && !Contains(text, p)
    ensures !Contains(Terminated(text), p)
  {
    if !EndsLine(text) {
      assert text + "\n" == text + "\n" + "";
      IndexInLines(text, "", p);
      NoneInEmpty(p);
    }
  }

  // ---------------------------------------------------------------- sequences of updates

  datatype Edit = Edit(key: string, content: string)

  /** Keys are single lines, no content ends its own block early, and no block
      contains another profile's markers. */
  predicate Compatible(edits: seq<Edit>) {
    && (forall i :: 0 <= i < |edits| ==>
          '\n' !in edits[i].key && !Contains(Terminated(edits[i].content), EndMarker(edits[i].key)))
    && (forall i, j :: 0 <= i < |edits| && 0 <= j < |edits| && edits[i].key != edits[j].key ==>
          !HasMarker(Tail(edits[i].key, edits[i].content), edits[j].key))
  }

  function TextAfter(text: string, edits: seq<Edit>): string {
    if edits == [] then text
    else Update(Some(TextAfter(text, edits[..|edits| - 1])), edits[|edits| - 1].key, edits[|edits| - 1].content)
  }

  function DocAfter(doc: seq<Piece>, edits: seq<Edit>): seq<Piece> {
    if edits == [] then doc
    else Put(DocAfter(doc, edits[..|edits| - 1]), edits[|edits| - 1].key, edits[|edits| - 1].content)
  }

  predicate CleanFor(doc: seq<Piece>, edits: seq<Edit>) {
    forall i :: 0 <= i < |edits| ==> Clean(doc, edits[i].key)
  }

  lemma PutKeeps(doc: seq<Piece>, key: string, content: string)
    requires doc != [] && AllLines(doc) && OnePerKey(doc) && '\n' !in key
    ensures Put(doc, key, content) != [] && AllLines(Put(doc, key, content)) && OnePerKey(Put(doc, key, content))
  {
    hide Terminated;
    TerminatedEndsLine(content);
    forall i | 0 <= i < |doc| && doc[i].Owned? && doc[i].key == key
      ensures Find(doc, key) == i
    {
      assert OwnedAt(doc, key, i);
    }
  }

  lemma TerminatedEndsLine(s: string)
    ensures EndsLine(Terminated(s))
  {
  }

  lemma NewlineIsClean(key: string)
    requires '\n' !in key
    ensures !HasMarker("\n", key)
  {
  }

  lemma PutCleanFor(doc: seq<Piece>, e: Edit, other: string)
    requires Clean(doc, other) && '\n' !in other
    requires if e.key == other then !Contains(Terminated(e.content), EndMarker(other))
             else !HasMarker(Tail(e.key, e.content), other)
    ensures Clean(Put(doc, e.key, e.content), other)
  {
    hide StartMarker, EndMarker, Index;
    NewlineIsClean(other);
    assert Written(Owned(e.key, Terminated(e.content))) == Tail(e.key, e.content);
  }

  /** Any sequence of updates keeps the file a document with one block per key
      and the text in between untouched. */
  lemma {:induction false} EveryUpdateIsPut(doc: seq<Piece>, edits: seq<Edit>)
    requires doc != [] && AllLines(doc) && OnePerKey(doc) && Compatible(edits) && CleanFor(doc, edits)
    ensures TextAfter(Render(doc), edits) == Render(DocAfter(doc, edits))
    ensures var d := DocAfter(doc, edits); d != [] && AllLines(d) && OnePerKey(d) && CleanFor(d, edits)
  {
    hide Update, Put, Clean, HasMarker, Contains, Tail, EndMarker, OnePerKey, AllLines;
    if edits != [] {
      var front, last := edits[..|edits| - 1], edits[|edits| - 1];
      forall i | 0 <= i < |edits|
        ensures Clean(DocAfter(doc, front), edits[i].key)
      {
        ShorterRun(doc, edits, edits[i].key);
      }
      EveryUpdateIsPut(doc, front);
      UpdateIsPut(DocAfter(doc, front), last.key, last.content);
      PutKeeps(DocAfter(doc, front), last.key, last.content);
      forall i | 0 <= i < |edits|
        ensures Clean(DocAfter(doc, edits), edits[i].key)
      {
        PutCleanFor(DocAfter(doc, front), last, edits[i].key);
      }
    }
  }

  /** A key whose markers no edit writes stays clean throughout. */
  lemma {:induction false} ShorterRun(doc: seq<Piece>, edits: seq<Edit>, key: string)
    requires edits != [] && Compatible(edits) && Clean(doc, key) && exists i :: 0 <= i < |edits| && edits[i].key == key
    ensures Clean(DocAfter(doc, edits[..|edits| - 1]), key)
  {
    hide Put, Clean, HasMarker, Contains, Tail, EndMarker;
    var at :| 0 <= at < |edits| && edits[at].key == key;
    StaysClean(doc, edits, at, |edits| - 1);
  }

  lemma {:induction false} StaysClean(doc: seq<Piece>, edits: seq<Edit>, at: nat, n: nat)
    requires Compatible(edits) && at < |edits| && n <= |edits| && Clean(doc, edits[at].key)
    ensures Clean(DocAfter(doc, edits[..n]), edits[at].key)
    decreases n
  {
    hide Put, Clean, HasMarker, Contains, Tail, EndMarker;
    if n > 0 {
      StaysClean(doc, edits, at, n - 1);
      assert edits[..n][..n - 1] == edits[..n - 1];
      PutCleanFor(DocAfter(doc, edits[..n - 1]), edits[n - 1], edits[at].key);
    }
  }

  /** After any updates, each profile's block holds the content of its own last
      update, and no other profile's update changed it. */
  lemma {:induction false} LastContentWins(doc: seq<Piece>, edits: seq<Edit>, at: nat)
    requires at < |edits| && forall j :: at < j < |edits| ==> edits[j].key != edits[at].key
    ensures exists i :: OwnedAt(DocAfter(doc, edits), edits[at].key, i)
                        && DocAfter(doc, edits)[i].body == Terminated(edits[at].content)
    decreases |edits|
  {
    var front, last := edits[..|edits| - 1], edits[|edits| - 1];
    var before := DocAfter(doc, front);
    if at == |edits| - 1 {
      var f := Find(before, last.key);
      assert OwnedAt(DocAfter(doc, edits), last.key, if f >= 0 then f else |before| + 1);
    } else {
      LastContentWins(doc, front, at);
      var i :| OwnedAt(before, edits[at].key, i) && before[i].body == Terminated(edits[at].content);
      assert OwnedAt(DocAfter(doc, edits), edits[at].key, i);
    }
  }

  /** Text the profiles do not own is kept, in its place, byte for byte. */
  lemma {:induction false} UserTextKept(doc: seq<Piece>, edits: seq<Edit>, i: nat)
    requires i < |doc| && doc[i].Text?
    ensures i < |DocAfter(doc, edits)| && DocAfter(doc, edits)[i] == doc[i]
    decreases |edits|
  {
    if edits != [] {
      UserTextKept(doc, edits[..|edits| - 1], i);
    }
  }

  // ---------------------------------------------------------------- when keys are compatible

  /** Without a '#' in it, a key's markers contain another key's markers exactly
      when that other key is a prefix of it. */
  lemma PrefixKeys(a: string, b: string)
    requires '#' !in b
    ensures Contains(StartMarker(b), StartMarker(a)) <==> a <= b
    ensures Contains(EndMarker(b), EndMarker(a)) <==> a <= b
    ensures !Contains(StartMarker(b), EndMarker(a)) && !Contains(EndMarker(b), StartMarker(a))
  {
    BeginHeadIsClean();
    EndHeadIsClean();
    HeadsDiffer(a, b);
    hide BeginHead, EndHead;
    MarkerOnlyInFront(BeginHead(), b, StartMarker(a));
    MarkerOnlyInFront(EndHead(), b, EndMarker(a));
    MarkerOnlyInFront(BeginHead(), b, EndMarker(a));
    MarkerOnlyInFront(EndHead(), b, StartMarker(a));
    PrefixCancels(BeginHead(), a, b);
    PrefixCancels(EndHead(), a, b);
  }

  lemma BeginHeadIsClean()
    ensures BeginHead() != "" && BeginHead()[0] == '#' && '#' !in BeginHead()[1..]
  {
  }

  lemma EndHeadIsClean()
    ensures EndHead() != "" && EndHead()[0] == '#' && '#' !in EndHead()[1..]
  {
  }

  lemma HeadsDiffer(a: string, b: string)
    ensures !(EndMarker(a) <= StartMarker(b)) && !(StartMarker(a) <= EndMarker(b))
  {
    assert StartMarker(b)[2] == StartMarker(a)[2] == 'B' && EndMarker(b)[2] == EndMarker(a)[2] == 'E';
  }

  lemma PrefixCancels(h: string, a: string, b: string)
    ensures h + a <= h + b <==> a <= b
  {
    if h + a <= h + b {
      assert (h + b)[..|h + a|][|h|..] == b[..|a|];
      assert (h + a)[|h|..] == a;
    }
    if a <= b {
      assert b == a + b[|a|..];
      assert h + b == (h + a) + b[|a|..];
    }
  }

  lemma MarkerOnlyInFront(h: string, b: string, p: string)
    requires '#' !in b && p != "" && p[0] == '#' && h != "" && h[0] == '#' && '#' !in h[1..]
    ensures Contains(h + b, p) <==> p <= h + b
  {
  }

  lemma NoHash(h: string, b: string, k: nat)
    requires h != "" && '#' !in b && '#' !in h[1..] && 0 < k < |h + b|
    ensures (h + b)[k] != '#'
  {
  }
}
