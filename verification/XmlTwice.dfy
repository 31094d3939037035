/** When applying the same XML overlay again changes nothing: every incoming
    child has an identity of its own among its namesakes, or is the only child
    of its name on both sides, at every depth. */
module XmlTwice {
  import opened Lists
  import opened XmlMerge
  import opened XmlOverlay

  /** Two incoming siblings that could land on the same child. */
  predicate Clash(a: Node, b: Node) {
    a.name == b.name && (Identity(a) == "" || Identity(b) == "" || Identity(a) == Identity(b))
  }

  predicate Single(nodes: seq<Node>, name: Name) {
    forall i, j :: 0 <= i < j < |nodes| ==> !(nodes[i].name == name && nodes[j].name == name)
  }

  predicate Distinct(nodes: seq<Node>) {
    forall i, j :: 0 <= i < j < |nodes| ==> !Clash(nodes[i], nodes[j])
  }

  /** The children an incoming element can land on. */
  function Slot(c: Node): Node -> bool {
    (n: Node) => n.name == c.name && (Identity(c) == "" || Identity(n) == Identity(c))
  }

  /** The overlay is unambiguous at every depth. */
  predicate Unambiguous(dst: Node, incoming: Node)
    decreases incoming
  {
    && Distinct(incoming.nodes)
    && forall j :: 0 <= j < |incoming.nodes| ==>
         var c := incoming.nodes[j];
         var k := Locate(dst.nodes, Slot(c));
         && OneEach(c.attrs) && (Identity(c) == "" ==> Single(dst.nodes, c.name))
         && (if k >= 0 then Unambiguous(dst.nodes[k], c) else Unambiguous(c, c))
  }

  lemma ChildUnambiguous(dst: Node, incoming: Node, j: nat)
    requires Unambiguous(dst, incoming) && j < |incoming.nodes|
    ensures Distinct(incoming.nodes)
    ensures var c := incoming.nodes[j];
            var k := Locate(dst.nodes, Slot(c));
            && OneEach(c.attrs) && (Identity(c) == "" ==> Single(dst.nodes, c.name))
            && (if k >= 0 then Unambiguous(dst.nodes[k], c) else Unambiguous(c, c))
  {
  }

  /** The part of it about the children of one element. */
  predicate Level(nodes: seq<Node>, cs: seq<Node>) {
    && Distinct(cs)
    && forall j :: 0 <= j < |cs| ==> OneEach(cs[j].attrs) && (Identity(cs[j]) == "" ==> Single(nodes, cs[j].name))
  }

  lemma UnambiguousLevel(dst: Node, incoming: Node)
    requires Unambiguous(dst, incoming)
    ensures Level(dst.nodes, incoming.nodes)
  {
  }

  lemma {:induction false} CountSingle(nodes: seq<Node>, name: Name)
    requires Single(nodes, name)
    ensures |Filter(nodes, SameName(name))| == if Locate(nodes, SameName(name)) >= 0 then 1 else 0
  {
    FilterMembers(nodes, SameName(name));
    if nodes != [] {
      var front, last := nodes[..|nodes| - 1], nodes[|nodes| - 1];
      CountSingle(front, name);
      var at := Locate(front, SameName(name));
      if at >= 0 {
        LocateFirst(nodes, SameName(name), at);
      } else if last.name == name {
        assert forall j :: 0 <= j < |front| ==> front[j] in front && !SameName(name)(front[j]);
        LocateFirst(nodes, SameName(name), |front|);
      } else {
        assert forall n :: n in nodes ==> n in front || n == last;
      }
    }
  }

  lemma LocateSame(nodes: seq<Node>, p: Node -> bool, q: Node -> bool)
    requires forall n :: p(n) == q(n)
    ensures Locate(nodes, p) == Locate(nodes, q)
  {
  }

  /** Among at most one namesake, an incoming element is found by its slot. */
  lemma FoundBySlot(nodes: seq<Node>, c: Node)
    requires Identity(c) == "" ==> Single(nodes, c.name)
    ensures FindChild(nodes, c) == Locate(nodes, Slot(c))
  {
    if Identity(c) == "" {
      CountSingle(nodes, c.name);
      LocateSame(nodes, SameName(c.name), Slot(c));
    } else {
      LocateSame(nodes, SameSlot(c.name, Identity(c)), Slot(c));
    }
  }

  /** What incoming child `c` leaves behind. */
  function Landed(nodes: seq<Node>, c: Node): Node {
    var k := Locate(nodes, Slot(c));
    if k >= 0 then Merge(nodes[k], c) else c
  }

  predicate SameLook(a: Node, b: Node) {
    a.name == b.name && Identity(a) == Identity(b)
  }

  /** The children after the first `n` incoming ones have landed. */
  ghost predicate Placed(nodes: seq<Node>, cs: seq<Node>, n: nat, cur: seq<Node>) {
    && |cur| >= |nodes| && n <= |cs|
    && (forall k :: 0 <= k < |nodes| ==> SameLook(cur[k], nodes[k]))
    && (forall j :: 0 <= j < |cs| && Identity(cs[j]) == "" ==> Single(cur, cs[j].name))
    && (forall j :: n <= j < |cs| ==>
          Locate(cur, Slot(cs[j])) == Locate(nodes, Slot(cs[j]))
          && (Locate(nodes, Slot(cs[j])) >= 0 ==> cur[Locate(nodes, Slot(cs[j]))] == nodes[Locate(nodes, Slot(cs[j]))]))
    && (forall j :: 0 <= j < n ==>
          Locate(cur, Slot(cs[j])) >= 0 && cur[Locate(cur, Slot(cs[j]))] == Landed(nodes, cs[j]))
  }

  lemma SlotsClash(a: Node, b: Node, x: Node)
    requires Slot(a)(x) && Slot(b)(x)
    ensures Clash(a, b) && Clash(b, a)
  {
  }

  /** Changing one child for one that looks the same moves no slot. */
  lemma ReplaceKeepsSlots(cur: seq<Node>, i: nat, x: Node, c: Node)
    requires i < |cur| && SameLook(x, cur[i])
    ensures Locate(cur[i := x], Slot(c)) == Locate(cur, Slot(c))
  {
    var cur' := cur[i := x];
    forall k | 0 <= k < |cur|
      ensures Slot(c)(cur'[k]) == Slot(c)(cur[k])
    {
    }
    var at := Locate(cur, Slot(c));
    if at >= 0 {
      LocateFirst(cur', Slot(c), at);
    } else {
      assert forall k :: 0 <= k < |cur| ==> cur[k] in cur && !Slot(c)(cur[k]);
      assert forall n :: n in cur' ==> !Slot(c)(n);
    }
  }

  lemma AppendSlots(cur: seq<Node>, x: Node, c: Node)
    ensures Locate(cur, Slot(c)) >= 0 ==> Locate(cur + [x], Slot(c)) == Locate(cur, Slot(c))
    ensures Locate(cur, Slot(c)) < 0 ==> Locate(cur + [x], Slot(c)) == if Slot(c)(x) then |cur| else -1
  {
    var at := Locate(cur, Slot(c));
    if at >= 0 {
      LocateFirst(cur + [x], Slot(c), at);
    } else {
      assert forall k :: 0 <= k < |cur| ==> cur[k] in cur && !Slot(c)(cur[k]);
      if Slot(c)(x) {
        LocateFirst(cur + [x], Slot(c), |cur|);
      } else {
        assert forall n :: n in cur + [x] ==> n in cur || n == x;
      }
    }
  }

  lemma LandOnExisting(nodes: seq<Node>, cs: seq<Node>, n: nat, cur: seq<Node>, i: nat)
    requires Placed(nodes, cs, n, cur) && n < |cs| && Distinct(cs) && i == Locate(nodes, Slot(cs[n]))
    requires SameLook(Merge(nodes[i], cs[n]), nodes[i])
    ensures Placed(nodes, cs, n + 1, cur[i := Merge(cur[i], cs[n])])
  {
    hide Merge, Identity;
    var x := Merge(cur[i], cs[n]);
    var cur' := cur[i := x];
    assert Slot(cs[n])(nodes[i]) && cur[i] == nodes[i];
    forall j | 0 <= j < |cs|
      ensures Locate(cur', Slot(cs[j])) == Locate(cur, Slot(cs[j]))
      ensures j != n && Locate(cur, Slot(cs[j])) >= 0 ==> Locate(cur, Slot(cs[j])) != i
    {
      ReplaceKeepsSlots(cur, i, x, cs[j]);
      if j != n && Locate(cur, Slot(cs[j])) == i {
        SlotsClash(cs[j], cs[n], cur[i]);
      }
    }
  }

  lemma LandAtEnd(nodes: seq<Node>, cs: seq<Node>, n: nat, cur: seq<Node>)
    requires Placed(nodes, cs, n, cur) && n < |cs| && Distinct(cs) && Locate(nodes, Slot(cs[n])) < 0
    ensures Placed(nodes, cs, n + 1, cur + [cs[n]])
  {
    hide Merge, Identity;
    var c := cs[n];
    var cur' := cur + [c];
    forall j | 0 <= j < |cs|
      ensures j != n ==> Locate(cur', Slot(cs[j])) == Locate(cur, Slot(cs[j]))
      ensures j == n ==> Locate(cur', Slot(cs[j])) == |cur|
    {
      AppendSlots(cur, c, cs[j]);
      if j != n && Slot(cs[j])(c) {
        SlotsClash(cs[j], c, c);
      }
    }
    forall j | 0 <= j < |cs| && Identity(cs[j]) == ""
      ensures Single(cur', cs[j].name)
    {
      StillSingle(cur, cs, n, j);
    }
  }

  lemma StillSingle(cur: seq<Node>, cs: seq<Node>, n: nat, j: nat)
    requires j < |cs| && n < |cs| && Distinct(cs) && Identity(cs[j]) == "" && Single(cur, cs[j].name)
    requires Locate(cur, Slot(cs[n])) < 0
    ensures Single(cur + [cs[n]], cs[j].name)
  {
    if cs[n].name == cs[j].name {
      assert j != n ==> Clash(cs[n], cs[j]) && Clash(cs[j], cs[n]);
      assert forall k :: 0 <= k < |cur| ==> cur[k] in cur && !Slot(cs[n])(cur[k]);
    }
  }

  lemma {:induction false} AllPlaced(nodes: seq<Node>, incoming: Node, n: nat)
    requires Level(nodes, incoming.nodes) && n <= |incoming.nodes|
    ensures Placed(nodes, incoming.nodes, n, MergeNodes(nodes, incoming, n))
    decreases n
  {
    hide Merge, Identity, Clash, Distinct, Placed, OneEach, Single;
    if n == 0 {
      NonePlaced(nodes, incoming);
    } else {
      AllPlaced(nodes, incoming, n - 1);
      var cur := MergeNodes(nodes, incoming, n - 1);
      var c := incoming.nodes[n - 1];
      NextFound(nodes, incoming.nodes, n - 1, cur);
      var i := Locate(nodes, Slot(c));
      if i >= 0 {
        MatchedLook(nodes, c, i);
        LandOnExisting(nodes, incoming.nodes, n - 1, cur, i);
      } else {
        LandAtEnd(nodes, incoming.nodes, n - 1, cur);
      }
    }
  }

  lemma NonePlaced(nodes: seq<Node>, incoming: Node)
    requires Level(nodes, incoming.nodes)
    ensures Placed(nodes, incoming.nodes, 0, MergeNodes(nodes, incoming, 0))
  {
  }

  lemma NextFound(nodes: seq<Node>, cs: seq<Node>, n: nat, cur: seq<Node>)
    requires Placed(nodes, cs, n, cur) && n < |cs|
    ensures FindChild(cur, cs[n]) == Locate(nodes, Slot(cs[n]))
  {
    hide Merge, Identity, Single, FindChild;
    FoundBySlot(cur, cs[n]);
  }

  lemma MatchedLook(nodes: seq<Node>, c: Node, i: nat)
    requires OneEach(c.attrs) && i == Locate(nodes, Slot(c))
    ensures SameLook(Merge(nodes[i], c), nodes[i])
  {
    assert Slot(c)(nodes[i]);
    IdentityKept(nodes[i], c);
  }

  // ---------------------------------------------------------------- the second time

  lemma NoneMerged(nodes: seq<Node>, incoming: Node)
    ensures MergeNodes(nodes, incoming, 0) == nodes
  {
  }

  /** One incoming child that lands on `i` and changes nothing there. */
  lemma StepSettled(nodes: seq<Node>, incoming: Node, n: nat, i: nat)
    requires 0 < n <= |incoming.nodes| && MergeNodes(nodes, incoming, n - 1) == nodes
    requires i < |nodes| && FindChild(nodes, incoming.nodes[n - 1]) == i
    requires Merge(nodes[i], incoming.nodes[n - 1]) == nodes[i]
    ensures MergeNodes(nodes, incoming, n) == nodes
  {
  }

  /** An unambiguous element merged into itself stays as it is. */
  lemma {:induction false} MergeSelf(c: Node)
    requires OneEach(c.attrs) && Unambiguous(c, c)
    ensures Merge(c, c) == c
    decreases c, |c.nodes| + 1
  {
    SelfAttrs(c.attrs);
    SelfChildren(c, |c.nodes|);
  }

  lemma SelfAttrs(attrs: seq<Attr>)
    requires OneEach(attrs)
    ensures MergeAttrs(attrs, attrs) == attrs
  {
    SelfAttrsSet(attrs);
    SettledOverlay(attrs, attrs);
  }

  lemma SelfSlot(nodes: seq<Node>, j: nat)
    requires Distinct(nodes) && j < |nodes|
    ensures Locate(nodes, Slot(nodes[j])) == j
  {
    forall k | 0 <= k < j
      ensures !Slot(nodes[j])(nodes[k])
    {
      assert !Clash(nodes[k], nodes[j]);
    }
    LocateFirst(nodes, Slot(nodes[j]), j);
  }

  lemma {:induction false} SelfChildren(c: Node, n: nat)
    requires Unambiguous(c, c) && n <= |c.nodes|
    ensures MergeNodes(c.nodes, c, n) == c.nodes
    decreases c, n
  {
    hide *;
    if n == 0 {
      NoneMerged(c.nodes, c);
    } else {
      SelfChildren(c, n - 1);
      ChildUnambiguous(c, c, n - 1);
      SelfSlot(c.nodes, n - 1);
      FoundBySlot(c.nodes, c.nodes[n - 1]);
      MergeSelf(c.nodes[n - 1]);
      StepSettled(c.nodes, c, n, n - 1);
    }
  }

  /** Applying an unambiguous overlay twice is applying it once. */
  lemma {:induction false} MergeTwice(dst: Node, incoming: Node)
    requires Unambiguous(dst, incoming)
    ensures Merge(Merge(dst, incoming), incoming) == Merge(dst, incoming)
    decreases incoming, |incoming.nodes| + 1
  {
    AttrsTwice(dst.attrs, incoming.attrs);
    UnambiguousLevel(dst, incoming);
    AllPlaced(dst.nodes, incoming, |incoming.nodes|);
    ChildrenSettled(dst, incoming, |incoming.nodes|);
  }

  lemma {:induction false} ChildrenSettled(dst: Node, incoming: Node, n: nat)
    requires Unambiguous(dst, incoming) && n <= |incoming.nodes|
    requires Placed(dst.nodes, incoming.nodes, |incoming.nodes|, MergeNodes(dst.nodes, incoming, |incoming.nodes|))
    ensures var r := MergeNodes(dst.nodes, incoming, |incoming.nodes|); MergeNodes(r, incoming, n) == r
    decreases incoming, n
  {
    hide *;
    if n == 0 {
      NoneMerged(MergeNodes(dst.nodes, incoming, |incoming.nodes|), incoming);
    } else {
      var r := MergeNodes(dst.nodes, incoming, |incoming.nodes|);
      var c := incoming.nodes[n - 1];
      ChildrenSettled(dst, incoming, n - 1);
      ChildUnambiguous(dst, incoming, n - 1);
      LandedFound(dst.nodes, incoming.nodes, r, n - 1);
      var k := Locate(dst.nodes, Slot(c));
      LandedIs(dst.nodes, c);
      if k >= 0 {
        MergeTwice(dst.nodes[k], c);
      } else {
        MergeSelf(c);
      }
      StepSettled(r, incoming, n, FindChild(r, c));
    }
  }

  lemma LandedIs(nodes: seq<Node>, c: Node)
    ensures Locate(nodes, Slot(c)) < |nodes|
    ensures var k := Locate(nodes, Slot(c)); Landed(nodes, c) == if k >= 0 then Merge(nodes[k], c) else c
  {
  }

  lemma LandedFound(nodes: seq<Node>, cs: seq<Node>, r: seq<Node>, j: nat)
    requires Placed(nodes, cs, |cs|, r) && j < |cs|
    ensures FindChild(r, cs[j]) >= 0 && r[FindChild(r, cs[j])] == Landed(nodes, cs[j])
  {
    hide Merge, Identity, Single, FindChild, Landed;
    FoundBySlot(r, cs[j]);
  }

  /** Everything the overlay sets is in the result: text, attribute values, and
      for every incoming child a child of its slot that carries it, recursively. */
  ghost predicate Carried(after: Node, incoming: Node)
    decreases incoming, 0
  {
    && (Blank(incoming.text) || after.text == incoming.text)
    && (forall name :: LastValue(incoming.attrs, name).Some? ==>
          var at := Locate(after.attrs, NamedAttr(name));
          at >= 0 && after.attrs[at].value == LastValue(incoming.attrs, name).value)
    && (forall j :: 0 <= j < |incoming.nodes| ==> ChildCarried(after.nodes, incoming.nodes[j]))
  }

  /** An incoming child is carried by some child of its slot. */
  ghost predicate ChildCarried(nodes: seq<Node>, c: Node)
    decreases c, 1
  {
    exists k :: 0 <= k < |nodes| && Slot(c)(nodes[k]) && Carried(nodes[k], c)
  }

  lemma CarriedFrom(after: Node, incoming: Node)
    requires Blank(incoming.text) || after.text == incoming.text
    requires forall name :: LastValue(incoming.attrs, name).Some? ==>
               var at := Locate(after.attrs, NamedAttr(name));
               at >= 0 && after.attrs[at].value == LastValue(incoming.attrs, name).value
    requires forall j :: 0 <= j < |incoming.nodes| ==> ChildCarried(after.nodes, incoming.nodes[j])
    ensures Carried(after, incoming)
  {
  }

  lemma {:induction false} SelfCarried(c: Node)
    requires OneEach(c.attrs) && Unambiguous(c, c)
    ensures Carried(c, c)
    decreases c
  {
    hide Unambiguous, Carried, ChildCarried;
    SelfAttrsSet(c.attrs);
    forall j | 0 <= j < |c.nodes|
      ensures ChildCarried(c.nodes, c.nodes[j])
    {
      ChildUnambiguous(c, c, j);
      SelfSlot(c.nodes, j);
      SelfCarried(c.nodes[j]);
      CarriedAt(c.nodes, c.nodes[j], j);
    }
    CarriedFrom(c, c);
  }

  lemma CarriedAt(nodes: seq<Node>, c: Node, k: nat)
    requires k < |nodes| && Slot(c)(nodes[k]) && Carried(nodes[k], c)
    ensures ChildCarried(nodes, c)
  {
  }

  lemma SelfAttrsSet(attrs: seq<Attr>)
    requires OneEach(attrs)
    ensures forall name :: LastValue(attrs, name).Some? ==>
              var at := Locate(attrs, NamedAttr(name)); at >= 0 && attrs[at].value == LastValue(attrs, name).value
  {
    forall name | LastValue(attrs, name).Some?
      ensures var at := Locate(attrs, NamedAttr(name)); at >= 0 && attrs[at].value == LastValue(attrs, name).value
    {
      var k := LastIsAttr(attrs, name);
      LocateFirst(attrs, NamedAttr(name), k);
    }
  }

  /** An unambiguous overlay arrives completely, at every depth. */
  lemma {:induction false} MergeCarries(dst: Node, incoming: Node)
    requires Unambiguous(dst, incoming)
    ensures Carried(Merge(dst, incoming), incoming)
    decreases incoming
  {
    hide Unambiguous, Carried, ChildCarried, MergeNodes, MergeAttrs, LastValue, Locate;
    var after := Merge(dst, incoming);
    forall name | LastValue(incoming.attrs, name).Some?
      ensures var at := Locate(after.attrs, NamedAttr(name));
              at >= 0 && after.attrs[at].value == LastValue(incoming.attrs, name).value
    {
      IncomingSet(dst.attrs, incoming.attrs, name);
    }
    UnambiguousLevel(dst, incoming);
    AllPlaced(dst.nodes, incoming, |incoming.nodes|);
    forall j | 0 <= j < |incoming.nodes|
      ensures ChildCarried(after.nodes, incoming.nodes[j])
    {
      hide *;
      var c := incoming.nodes[j];
      ChildUnambiguous(dst, incoming, j);
      var at := PlacedSlot(dst.nodes, incoming.nodes, MergeNodes(dst.nodes, incoming, |incoming.nodes|), j);
      LandedIs(dst.nodes, c);
      if Locate(dst.nodes, Slot(c)) >= 0 {
        MergeCarries(dst.nodes[Locate(dst.nodes, Slot(c))], c);
      } else {
        SelfCarried(c);
      }
      MergedNodes(dst, incoming);
      CarriedAt(after.nodes, c, at);
    }
    CarriedFrom(after, incoming);
  }

  lemma MergedNodes(dst: Node, incoming: Node)
    ensures Merge(dst, incoming).nodes == MergeNodes(dst.nodes, incoming, |incoming.nodes|)
  {
  }

  lemma PlacedSlot(nodes: seq<Node>, cs: seq<Node>, cur: seq<Node>, j: nat) returns (at: nat)
    requires Placed(nodes, cs, |cs|, cur) && j < |cs|
    ensures at < |cur| && Slot(cs[j])(cur[at]) && cur[at] == Landed(nodes, cs[j])
  {
    at := Locate(cur, Slot(cs[j]));
  }

  // ---------------------------------------------------------------- exactly when

  /** An overlay whose siblings can be told apart, at every depth. */
  predicate Tidy(n: Node) {
    && Distinct(n.nodes)
    && forall j :: 0 <= j < |n.nodes| ==> OneEach(n.nodes[j].attrs) && Tidy(n.nodes[j])
  }

  lemma DistinctSingle(cs: seq<Node>, j: nat)
    requires Distinct(cs) && j < |cs| && Identity(cs[j]) == ""
    ensures Single(cs, cs[j].name)
  {
    hide Identity;
    forall a, b | 0 <= a < b < |cs|
      ensures !(cs[a].name == cs[j].name && cs[b].name == cs[j].name)
    {
      var x := if a == j then b else a;
      assert !Clash(cs[if x < j then x else j], cs[if x < j then j else x]);
    }
  }

  /** Such an overlay fits itself. */
  lemma {:induction false} TidyFitsItself(c: Node)
    requires Tidy(c)
    ensures Unambiguous(c, c)
    decreases c
  {
    hide Identity, Clash, Single, OneEach, Distinct;
    forall j | 0 <= j < |c.nodes|
      ensures Locate(c.nodes, Slot(c.nodes[j])) == j && Unambiguous(c.nodes[j], c.nodes[j])
      ensures Identity(c.nodes[j]) == "" ==> Single(c.nodes, c.nodes[j].name)
    {
      SelfSlot(c.nodes, j);
      TidyFitsItself(c.nodes[j]);
      if Identity(c.nodes[j]) == "" {
        DistinctSingle(c.nodes, j);
      }
    }
  }

  /** Children keep their names and places, and are never fewer. */
  lemma {:induction false} NamesStay(nodes: seq<Node>, incoming: Node, n: nat)
    requires n <= |incoming.nodes|
    ensures var r := MergeNodes(nodes, incoming, n);
            |r| >= |nodes| && forall k :: 0 <= k < |nodes| ==> r[k].name == nodes[k].name
    decreases n
  {
    hide FindChild, Merge;
    if n > 0 {
      NamesStay(nodes, incoming, n - 1);
      var before := MergeNodes(nodes, incoming, n - 1);
      var i := FindChild(before, incoming.nodes[n - 1]);
      if i >= 0 {
        MergeKeepsName(before[i], incoming.nodes[n - 1]);
      }
    }
  }

  lemma MergeKeepsName(dst: Node, incoming: Node)
    ensures Merge(dst, incoming).name == dst.name
  {
  }

  lemma {:induction false} ManyCounted(nodes: seq<Node>, name: Name)
    requires !Single(nodes, name)
    ensures |Filter(nodes, SameName(name))| >= 2
  {
    var front, last := nodes[..|nodes| - 1], nodes[|nodes| - 1];
    if !Single(front, name) {
      ManyCounted(front, name);
    } else {
      var i :| 0 <= i < |front| && front[i].name == name;
      FilterMembers(front, SameName(name));
      assert front[i] in Filter(front, SameName(name));
    }
  }

  /** A child without identity among several namesakes is appended each time. */
  lemma {:induction false} ManyNamesakesGrow(nodes: seq<Node>, incoming: Node, n: nat, j: nat)
    requires j < n <= |incoming.nodes| && Identity(incoming.nodes[j]) == "" && !Single(nodes, incoming.nodes[j].name)
    ensures |MergeNodes(nodes, incoming, n)| > |nodes|
    decreases n
  {
    hide FindChild, Merge;
    if j < n - 1 {
      ManyNamesakesGrow(nodes, incoming, n - 1, j);
    } else {
      NamesStay(nodes, incoming, n - 1);
      var before := MergeNodes(nodes, incoming, n - 1);
      NotFound(before, incoming.nodes[j]);
    }
  }

  lemma NotFound(nodes: seq<Node>, c: Node)
    requires Identity(c) == "" && !Single(nodes, c.name)
    ensures FindChild(nodes, c) < 0
  {
    ManyCounted(nodes, c.name);
  }

  /** On a level where nothing is ambiguous, every child that has landed once is
      found again. */
  lemma {:induction false} LandedNeverGrows(nodes: seq<Node>, incoming: Node, n: nat)
    requires Level(nodes, incoming.nodes) && n <= |incoming.nodes|
    requires forall j :: 0 <= j < |incoming.nodes| ==> Locate(nodes, Slot(incoming.nodes[j])) >= 0
    ensures |MergeNodes(nodes, incoming, n)| == |nodes|
    decreases n
  {
    hide Level, Placed, Merge, FindChild, Slot;
    if n > 0 {
      LandedNeverGrows(nodes, incoming, n - 1);
      AllPlaced(nodes, incoming, n - 1);
      NextFound(nodes, incoming.nodes, n - 1, MergeNodes(nodes, incoming, n - 1));
    }
  }

  lemma LandedLevel(nodes: seq<Node>, incoming: Node)
    requires Level(nodes, incoming.nodes)
    ensures var r := MergeNodes(nodes, incoming, |incoming.nodes|);
            Level(r, incoming.nodes) && forall j :: 0 <= j < |incoming.nodes| ==> Locate(r, Slot(incoming.nodes[j])) >= 0
  {
    hide MergeNodes, Identity, Single, OneEach, Distinct;
    AllPlaced(nodes, incoming, |incoming.nodes|);
  }

  /** One level: applying the overlay again adds children if and only if one of
      its children has no identity and several namesakes. */
  lemma GrowsExactly(nodes: seq<Node>, incoming: Node)
    requires Distinct(incoming.nodes) && forall c <- incoming.nodes :: OneEach(c.attrs)
    ensures var n := |incoming.nodes|;
            var r := MergeNodes(nodes, incoming, n);
            |MergeNodes(r, incoming, n)| > |r|
            <==> exists j :: 0 <= j < n && Identity(incoming.nodes[j]) == "" && !Single(nodes, incoming.nodes[j].name)
  {
    hide MergeNodes, Distinct, OneEach, Identity, Single;
    var n := |incoming.nodes|;
    var r := MergeNodes(nodes, incoming, n);
    if j :| 0 <= j < n && Identity(incoming.nodes[j]) == "" && !Single(nodes, incoming.nodes[j].name) {
      NamesStay(nodes, incoming, n);
      StillSeveral(nodes, r, incoming.nodes[j].name);
      ManyNamesakesGrow(r, incoming, n, j);
    } else {
      assert forall j :: 0 <= j < n ==> incoming.nodes[j] in incoming.nodes;
      LandedLevel(nodes, incoming);
      LandedNeverGrows(r, incoming, n);
    }
  }

  lemma StillSeveral(nodes: seq<Node>, r: seq<Node>, name: Name)
    requires |r| >= |nodes| && forall k :: 0 <= k < |nodes| ==> r[k].name == nodes[k].name
    requires !Single(nodes, name)
    ensures !Single(r, name)
  {
    var a, b :| 0 <= a < b < |nodes| && nodes[a].name == name && nodes[b].name == name;
    assert r[a].name == name && r[b].name == name;
  }

  /** The least case, which grows for ever: the one incoming child, without
      identity among several namesakes, is appended once more each time. */
  lemma AmbiguousChildGrows(dst: Node, incoming: Node)
    requires |incoming.nodes| == 1 && Identity(incoming.nodes[0]) == ""
    requires |Filter(dst.nodes, SameName(incoming.nodes[0].name))| >= 2
    ensures Merge(dst, incoming).nodes == dst.nodes + incoming.nodes
    ensures |Filter(Merge(dst, incoming).nodes, SameName(incoming.nodes[0].name))| >= 2
  {
    var c := incoming.nodes[0];
    assert MergeNodes(dst.nodes, incoming, 0) == dst.nodes;
    FilterAppend(dst.nodes, c, SameName(c.name));
    assert incoming.nodes == [c];
  }

  /** For an overlay whose siblings can be told apart, applying it twice is
      applying it once exactly when, at every depth, each of its children that
      has no identity meets at most one namesake. */
  lemma {:induction false} MergeTwiceExactly(dst: Node, incoming: Node)
    requires Tidy(incoming)
    ensures Merge(Merge(dst, incoming), incoming) == Merge(dst, incoming) <==> Unambiguous(dst, incoming)
    decreases incoming
  {
    hide Merge, Unambiguous, MergeNodes, Placed, Identity, Single, Distinct, OneEach, Clash;
    if Unambiguous(dst, incoming) {
      MergeTwice(dst, incoming);
    } else {
      var n := |incoming.nodes|;
      var r := MergeNodes(dst.nodes, incoming, n);
      MergedNodes(dst, incoming);
      MergedNodes(Merge(dst, incoming), incoming);
      assert forall c <- incoming.nodes :: OneEach(c.attrs);
      GrowsExactly(dst.nodes, incoming);
      if Level(dst.nodes, incoming.nodes) {
        var j := DeeperAmbiguity(dst, incoming);
        MergeTwiceExactly(dst.nodes[Locate(dst.nodes, Slot(incoming.nodes[j]))], incoming.nodes[j]);
        ChildStillChanges(dst.nodes, incoming, j);
      }
    }
  }

  lemma DeeperAmbiguity(dst: Node, incoming: Node) returns (j: nat)
    requires Tidy(incoming) && Level(dst.nodes, incoming.nodes) && !Unambiguous(dst, incoming)
    ensures j < |incoming.nodes|
    ensures var k := Locate(dst.nodes, Slot(incoming.nodes[j])); k >= 0 && !Unambiguous(dst.nodes[k], incoming.nodes[j])
  {
    hide Identity, Single, Distinct, OneEach, Clash;
    forall c | c in incoming.nodes && Tidy(c)
      ensures Unambiguous(c, c)
    {
      TidyFitsItself(c);
    }
    assert forall i :: 0 <= i < |incoming.nodes| ==> incoming.nodes[i] in incoming.nodes;
    j :| 0 <= j < |incoming.nodes| && Locate(dst.nodes, Slot(incoming.nodes[j])) >= 0
         && !Unambiguous(dst.nodes[Locate(dst.nodes, Slot(incoming.nodes[j]))], incoming.nodes[j]);
  }

  lemma ChildStillChanges(nodes: seq<Node>, incoming: Node, j: nat)
    requires Level(nodes, incoming.nodes) && j < |incoming.nodes| && Locate(nodes, Slot(incoming.nodes[j])) >= 0
    requires var c := incoming.nodes[j];
             var once := Merge(nodes[Locate(nodes, Slot(c))], c);
             Merge(once, c) != once
    ensures var n := |incoming.nodes|;
            var r := MergeNodes(nodes, incoming, n);
            MergeNodes(r, incoming, n) != r
  {
    hide Merge, MergeNodes, Level;
    var n := |incoming.nodes|;
    var r := MergeNodes(nodes, incoming, n);
    AllPlaced(nodes, incoming, n);
    LandedLevel(nodes, incoming);
    AllPlaced(r, incoming, n);
    LandedTwice(nodes, incoming.nodes, r, MergeNodes(r, incoming, n), j);
  }

  lemma LandedTwice(nodes: seq<Node>, cs: seq<Node>, r: seq<Node>, r': seq<Node>, j: nat)
    requires Placed(nodes, cs, |cs|, r) && Placed(r, cs, |cs|, r') && j < |cs| && Locate(nodes, Slot(cs[j])) >= 0
    ensures Locate(r, Slot(cs[j])) >= 0 && r[Locate(r, Slot(cs[j]))] == Merge(nodes[Locate(nodes, Slot(cs[j]))], cs[j])
    ensures Locate(r', Slot(cs[j])) >= 0 && r'[Locate(r', Slot(cs[j]))] == Merge(r[Locate(r, Slot(cs[j]))], cs[j])
  {
    hide Merge, Identity;
  }
}
