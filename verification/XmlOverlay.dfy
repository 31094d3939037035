/** What the XML overlay keeps, and when repeating it changes nothing. */
module XmlOverlay {
  import opened Lists
  import opened XmlMerge

  // ---------------------------------------------------------------- attributes

  function LastValue(attrs: seq<Attr>, name: Name): Option<string> {
    if attrs == [] then None
    else if attrs[|attrs| - 1].name == name then Some(attrs[|attrs| - 1].value)
    else LastValue(attrs[..|attrs| - 1], name)
  }

  /** The first attribute of its name, the one an overlay changes. */
  predicate IsLead(attrs: seq<Attr>, k: nat)
    requires k < |attrs|
  {
    forall j :: 0 <= j < k ==> attrs[j].name != attrs[k].name
  }

  lemma LeadIsLocated(attrs: seq<Attr>, k: nat)
    requires k < |attrs|
    ensures IsLead(attrs, k) <==> Locate(attrs, NamedAttr(attrs[k].name)) == k
  {
    assert NamedAttr(attrs[k].name)(attrs[k]);
    assert attrs[k] in attrs;
  }

  /** Attributes keep their place and name; the first of each name takes the
      last incoming value for it, if there is one. */
  lemma {:induction false} AttrKept(dst: seq<Attr>, incoming: seq<Attr>, k: nat)
    requires k < |dst|
    ensures |MergeAttrs(dst, incoming)| >= |dst|
    ensures var a := MergeAttrs(dst, incoming)[k];
            && a.name == dst[k].name
            && a.value == if IsLead(dst, k) && LastValue(incoming, dst[k].name).Some?
                          then LastValue(incoming, dst[k].name).value else dst[k].value
  {
    if incoming != [] {
      var front, last := incoming[..|incoming| - 1], incoming[|incoming| - 1];
      var before := MergeAttrs(dst, front);
      AttrKept(dst, front, k);
      forall j | 0 <= j < k
        ensures before[j].name == dst[j].name
      {
        AttrKept(dst, front, j);
      }
      LeadIsLocated(before, k);
      assert IsLead(before, k) <==> IsLead(dst, k);
    }
  }

  lemma MergeAttrKeeps(dst: seq<Attr>, a: Attr, name: Name)
    requires Locate(dst, NamedAttr(name)) >= 0
    ensures Locate(MergeAttr(dst, a), NamedAttr(name)) == Locate(dst, NamedAttr(name))
    ensures var at := Locate(dst, NamedAttr(name));
            MergeAttr(dst, a)[at].value == if a.name == name then a.value else dst[at].value
  {
    var at := Locate(dst, NamedAttr(name));
    LocateFirst(MergeAttr(dst, a), NamedAttr(name), at);
  }

  /** After an overlay the first attribute of an incoming name has its last value. */
  lemma {:induction false} IncomingSet(dst: seq<Attr>, incoming: seq<Attr>, name: Name)
    requires LastValue(incoming, name).Some?
    ensures var m := MergeAttrs(dst, incoming);
            var at := Locate(m, NamedAttr(name));
            at >= 0 && m[at].value == LastValue(incoming, name).value
  {
    var front, last := incoming[..|incoming| - 1], incoming[|incoming| - 1];
    var before := MergeAttrs(dst, front);
    if last.name == name {
      if Locate(before, NamedAttr(name)) >= 0 {
        MergeAttrKeeps(before, last, name);
      } else {
        assert forall x :: x in before ==> !NamedAttr(name)(x);
        assert forall j :: 0 <= j < |before| ==> before[j] in before;
        LocateFirst(before + [last], NamedAttr(name), |before|);
      }
    } else {
      IncomingSet(dst, front, name);
      MergeAttrKeeps(before, last, name);
    }
  }

  /** An attribute whose value is already there changes nothing. */
  lemma {:induction false} AttrsSettled(m: seq<Attr>, incoming: seq<Attr>)
    requires forall name :: LastValue(incoming, name).Some? ==> Locate(m, NamedAttr(name)) >= 0
    ensures |MergeAttrs(m, incoming)| == |m|
  {
    if incoming != [] {
      var front, last := incoming[..|incoming| - 1], incoming[|incoming| - 1];
      forall name | LastValue(front, name).Some?
        ensures LastValue(incoming, name).Some?
      {
      }
      AttrsSettled(m, front);
      assert LastValue(incoming, last.name).Some?;
      StaysLocated(m, front, last.name);
    }
  }

  lemma {:induction false} StaysLocated(m: seq<Attr>, incoming: seq<Attr>, name: Name)
    requires Locate(m, NamedAttr(name)) >= 0
    ensures Locate(MergeAttrs(m, incoming), NamedAttr(name)) == Locate(m, NamedAttr(name))
  {
    if incoming != [] {
      StaysLocated(m, incoming[..|incoming| - 1], name);
      MergeAttrKeeps(MergeAttrs(m, incoming[..|incoming| - 1]), incoming[|incoming| - 1], name);
    }
  }

  lemma SettledOverlay(m: seq<Attr>, incoming: seq<Attr>)
    requires forall name :: LastValue(incoming, name).Some? ==>
               var at := Locate(m, NamedAttr(name)); at >= 0 && m[at].value == LastValue(incoming, name).value
    ensures MergeAttrs(m, incoming) == m
  {
    AttrsSettled(m, incoming);
    forall k | 0 <= k < |m|
      ensures MergeAttrs(m, incoming)[k] == m[k]
    {
      AttrKept(m, incoming, k);
      LeadIsLocated(m, k);
    }
  }

  /** Overlaying the same attributes again changes nothing, duplicates included. */
  lemma AttrsTwice(dst: seq<Attr>, incoming: seq<Attr>)
    ensures MergeAttrs(MergeAttrs(dst, incoming), incoming) == MergeAttrs(dst, incoming)
  {
    forall name | LastValue(incoming, name).Some?
      ensures var m := MergeAttrs(dst, incoming);
              var at := Locate(m, NamedAttr(name)); at >= 0 && m[at].value == LastValue(incoming, name).value
    {
      IncomingSet(dst, incoming, name);
    }
    SettledOverlay(MergeAttrs(dst, incoming), incoming);
  }

  // ---------------------------------------------------------------- nothing is lost

  /** `after` still has every attribute and child of `before`, in place, at
      every depth. */
  predicate Extends(before: Node, after: Node)
    decreases before
  {
    && after.name == before.name
    && |before.attrs| <= |after.attrs| && |before.nodes| <= |after.nodes|
    && (forall k :: 0 <= k < |before.attrs| ==> after.attrs[k].name == before.attrs[k].name)
    && (forall k :: 0 <= k < |before.nodes| ==> Extends(before.nodes[k], after.nodes[k]))
  }

  lemma {:induction false} ExtendsSelf(n: Node)
    ensures Extends(n, n)
    decreases n
  {
    forall k | 0 <= k < |n.nodes|
      ensures Extends(n.nodes[k], n.nodes[k])
    {
      ExtendsSelf(n.nodes[k]);
    }
  }

  lemma {:induction false} ExtendsTrans(a: Node, b: Node, c: Node)
    requires Extends(a, b) && Extends(b, c)
    ensures Extends(a, c)
    decreases a
  {
    forall k | 0 <= k < |a.nodes|
      ensures Extends(a.nodes[k], c.nodes[k])
    {
      ExtendsTrans(a.nodes[k], b.nodes[k], c.nodes[k]);
    }
  }

  /** An overlay never deletes or reorders an existing child or attribute. */
  lemma {:induction false} NothingLost(dst: Node, incoming: Node)
    ensures Extends(dst, Merge(dst, incoming))
    decreases incoming, |incoming.nodes| + 1
  {
    forall k | 0 <= k < |dst.attrs|
      ensures |MergeAttrs(dst.attrs, incoming.attrs)| >= |dst.attrs|
      ensures MergeAttrs(dst.attrs, incoming.attrs)[k].name == dst.attrs[k].name
    {
      AttrKept(dst.attrs, incoming.attrs, k);
    }
    if dst.attrs != [] {
      AttrKept(dst.attrs, incoming.attrs, 0);
    }
    NoChildLost(dst.nodes, incoming, |incoming.nodes|);
  }

  lemma {:induction false} NoChildLost(nodes: seq<Node>, incoming: Node, n: nat)
    requires n <= |incoming.nodes|
    ensures |nodes| <= |MergeNodes(nodes, incoming, n)|
    ensures forall k :: 0 <= k < |nodes| ==> Extends(nodes[k], MergeNodes(nodes, incoming, n)[k])
    decreases incoming, n
  {
    hide Extends, FindChild, Merge;
    if n == 0 {
      forall k | 0 <= k < |nodes|
        ensures Extends(nodes[k], nodes[k])
      {
        ExtendsSelf(nodes[k]);
      }
    } else {
      NoChildLost(nodes, incoming, n - 1);
      var before := MergeNodes(nodes, incoming, n - 1);
      var i := FindChild(before, incoming.nodes[n - 1]);
      if 0 <= i < |nodes| {
        NothingLost(before[i], incoming.nodes[n - 1]);
        ExtendsTrans(nodes[i], before[i], Merge(before[i], incoming.nodes[n - 1]));
      }
    }
  }

  // ---------------------------------------------------------------- identity

  lemma {:induction false} NewNamesAreIncoming(dst: seq<Attr>, incoming: seq<Attr>, a: Attr)
    requires a in MergeAttrs(dst, incoming)
    ensures (exists b <- dst :: b.name == a.name) || (exists b <- incoming :: b.name == a.name)
  {
    if incoming != [] {
      var front, last := incoming[..|incoming| - 1], incoming[|incoming| - 1];
      var before := MergeAttrs(dst, front);
      assert last in incoming;
      if a.name != last.name {
        assert a in before;
        NewNamesAreIncoming(dst, front, a);
        assert forall b :: b in front ==> b in incoming;
      }
    }
  }

  /** Where an overlay leaves the first attribute with a local name. */
  lemma LocalAfter(dst: seq<Attr>, incoming: seq<Attr>, key: string)
    ensures var at := Locate(dst, LocalAttr(key));
            && (at >= 0 ==> Locate(MergeAttrs(dst, incoming), LocalAttr(key)) == at)
            && (at < 0 && Locate(incoming, LocalAttr(key)) < 0 ==> Locate(MergeAttrs(dst, incoming), LocalAttr(key)) < 0)
  {
    var m := MergeAttrs(dst, incoming);
    var at := Locate(dst, LocalAttr(key));
    forall k | 0 <= k < |dst|
      ensures |m| >= |dst| && m[k].name == dst[k].name
    {
      AttrKept(dst, incoming, k);
    }
    if at >= 0 {
      LocateFirst(m, LocalAttr(key), at);
    } else if Locate(incoming, LocalAttr(key)) < 0 {
      forall a | a in m
        ensures !LocalAttr(key)(a)
      {
        NewNamesAreIncoming(dst, incoming, a);
        assert forall b :: b in dst ==> !LocalAttr(key)(b);
        assert forall b :: b in incoming ==> !LocalAttr(key)(b);
      }
    }
  }

  lemma IdentityText(attrs: seq<Attr>)
    ensures IdentityOf(attrs) == "" <==> IdentityAttr(attrs) < 0
    ensures IdentityAttr(attrs) >= 0 ==>
              attrs[IdentityAttr(attrs)].name.local in {"id", "name", "key"}
  {
  }

  /** Equal identities come from the same kind of attribute. */
  lemma SameKind(a: seq<Attr>, b: seq<Attr>)
    requires IdentityOf(a) == IdentityOf(b) && IdentityOf(a) != ""
    ensures a[IdentityAttr(a)].name.local == b[IdentityAttr(b)].name.local
    ensures a[IdentityAttr(a)].value == b[IdentityAttr(b)].value
  {
    IdentityText(a);
    IdentityText(b);
    var x, y := a[IdentityAttr(a)], b[IdentityAttr(b)];
    assert IdentityOf(a)[0] == x.name.local[0] && IdentityOf(b)[0] == y.name.local[0];
    assert IdentityOf(a)[|x.name.local| + 1..] == x.value && IdentityOf(b)[|y.name.local| + 1..] == y.value;
  }

  lemma IdentityAttrKept(dst: seq<Attr>, incoming: seq<Attr>)
    requires IdentityOf(incoming) == "" || IdentityOf(incoming) == IdentityOf(dst)
    ensures IdentityAttr(MergeAttrs(dst, incoming)) == IdentityAttr(dst)
  {
    IdentityText(incoming);
    IdentityText(dst);
    LocalAfter(dst, incoming, "id");
    LocalAfter(dst, incoming, "name");
    LocalAfter(dst, incoming, "key");
    if IdentityOf(incoming) != "" {
      SameKind(dst, incoming);
    }
  }

  /** A matched child keeps its identity exactly when the incoming element does
      not end up giving another value to the very attribute, namespace included,
      that identifies it. */
  lemma IdentityExactly(dst: Node, incoming: Node)
    requires Identity(incoming) == "" || Identity(incoming) == Identity(dst)
    ensures Identity(Merge(dst, incoming)) == Identity(dst)
            <==> Identity(dst) == ""
                 || var a := dst.attrs[IdentityAttr(dst.attrs)];
                    LastValue(incoming.attrs, a.name) == None || LastValue(incoming.attrs, a.name) == Some(a.value)
  {
    IdentityText(dst.attrs);
    IdentityAttrKept(dst.attrs, incoming.attrs);
    var at := IdentityAttr(dst.attrs);
    if at >= 0 {
      AttrKept(dst.attrs, incoming.attrs, at);
      IdentityIsLead(dst.attrs);
      var m := MergeAttrs(dst.attrs, incoming.attrs);
      var head := dst.attrs[at].name.local + "=";
      assert (head + m[at].value)[|head|..] == m[at].value && (head + dst.attrs[at].value)[|head|..] == dst.attrs[at].value;
    }
  }

  lemma IdentityIsLead(attrs: seq<Attr>)
    requires IdentityAttr(attrs) >= 0
    ensures IsLead(attrs, IdentityAttr(attrs))
  {
  }

  /** Attribute names are distinct, as section 3.1 of XML 1.0 requires, and no
      two identifying attributes differ in namespace only. */
  predicate OneEach(attrs: seq<Attr>) {
    forall i, j :: 0 <= i < j < |attrs| ==>
      && attrs[i].name != attrs[j].name
      && (attrs[i].name.local in {"id", "name", "key"} ==> attrs[i].name.local != attrs[j].name.local)
  }

  lemma {:induction false} LastIsAttr(attrs: seq<Attr>, name: Name) returns (k: nat)
    requires LastValue(attrs, name).Some?
    ensures k < |attrs| && attrs[k].name == name && attrs[k].value == LastValue(attrs, name).value
  {
    if attrs[|attrs| - 1].name == name {
      k := |attrs| - 1;
    } else {
      k := LastIsAttr(attrs[..|attrs| - 1], name);
    }
  }

  /** With plain identifying attributes no matched child changes identity. */
  lemma IdentityKept(dst: Node, incoming: Node)
    requires OneEach(incoming.attrs)
    requires Identity(incoming) == "" || Identity(incoming) == Identity(dst)
    ensures Identity(Merge(dst, incoming)) == Identity(dst)
  {
    IdentityExactly(dst, incoming);
    IdentityText(dst.attrs);
    IdentityText(incoming.attrs);
    if Identity(dst) != "" {
      var a := dst.attrs[IdentityAttr(dst.attrs)];
      if LastValue(incoming.attrs, a.name).Some? {
        var k := LastIsAttr(incoming.attrs, a.name);
        LocalIsLocated(incoming.attrs, k);
        if Identity(incoming) != "" {
          SameKind(dst.attrs, incoming.attrs);
        }
      }
    }
  }

  lemma LocalIsLocated(attrs: seq<Attr>, k: nat)
    requires k < |attrs|
    ensures Locate(attrs, LocalAttr(attrs[k].name.local)) >= 0
  {
    assert LocalAttr(attrs[k].name.local)(attrs[k]);
    assert attrs[k] in attrs;
  }

  /** A namespaced duplicate defeats it: the overlay moves the identity. */
  lemma NamespacedIdentityMoves()
    ensures var a, b := Name("a", "id"), Name("b", "id");
            var dst := Node(Name("", "entry"), [Attr(a, "x")], "", []);
            var incoming := Node(Name("", "entry"), [Attr(b, "x"), Attr(a, "y")], "", []);
            Identity(incoming) == Identity(dst) && Identity(Merge(dst, incoming)) != Identity(dst)
  {
    var a, b := Name("a", "id"), Name("b", "id");
    var dst := Node(Name("", "entry"), [Attr(a, "x")], "", []);
    var incoming := Node(Name("", "entry"), [Attr(b, "x"), Attr(a, "y")], "", []);
    LocateFirst(dst.attrs, LocalAttr("id"), 0);
    LocateFirst(incoming.attrs, LocalAttr("id"), 0);
    assert Identity(dst) == "id=x" && Identity(incoming) == "id=x";
    IdentityExactly(dst, incoming);
  }

  // ---------------------------------------------------------------- who is meant

  /** The first attribute with that local name has that value. */
  predicate FirstIs(attrs: seq<Attr>, key: string, value: string) {
    exists i :: 0 <= i < |attrs| && attrs[i].name.local == key && attrs[i].value == value
                && forall j :: 0 <= j < i ==> attrs[j].name.local != key
  }

  predicate Lacks(attrs: seq<Attr>, key: string) {
    forall a <- attrs :: a.name.local != key
  }

  lemma FirstLocated(attrs: seq<Attr>, key: string, value: string)
    ensures FirstIs(attrs, key, value)
            <==> Locate(attrs, LocalAttr(key)) >= 0 && attrs[Locate(attrs, LocalAttr(key))].value == value
    ensures Lacks(attrs, key) <==> Locate(attrs, LocalAttr(key)) < 0
  {
    var at := Locate(attrs, LocalAttr(key));
    if at >= 0 {
      assert attrs[at] in attrs && LocalAttr(key)(attrs[at]);
    }
    if i :| 0 <= i < |attrs| && attrs[i].name.local == key && attrs[i].value == value
            && forall j :: 0 <= j < i ==> attrs[j].name.local != key {
      LocateFirst(attrs, LocalAttr(key), i);
    }
  }

  /** An `id` decides, whatever else is there; without one a `name`; without
      either a `key`; and without any of the three there is no identity. */
  lemma IdentityDecided(n: Node, value: string)
    ensures FirstIs(n.attrs, "id", value) ==> Identity(n) == "id=" + value
    ensures Lacks(n.attrs, "id") && FirstIs(n.attrs, "name", value) ==> Identity(n) == "name=" + value
    ensures Lacks(n.attrs, "id") && Lacks(n.attrs, "name") && FirstIs(n.attrs, "key", value) ==> Identity(n) == "key=" + value
    ensures Lacks(n.attrs, "id") && Lacks(n.attrs, "name") && Lacks(n.attrs, "key") ==> Identity(n) == ""
  {
    hide FirstIs, Lacks;
    FirstLocated(n.attrs, "id", value);
    FirstLocated(n.attrs, "name", value);
    FirstLocated(n.attrs, "key", value);
  }

  lemma KeyTextsApart(value: string, other: string)
    ensures "name=" + other != "id=" + value && "key=" + other != "id=" + value && "id=" + value != ""
    ensures "id=" + other == "id=" + value ==> other == value
  {
    assert ("name=" + other)[0] == 'n' && ("key=" + other)[0] == 'k' && ("id=" + value)[0] == 'i';
    assert ("id=" + other)[3..] == other && ("id=" + value)[3..] == value;
  }

  lemma IdIdentity(n: Node, value: string)
    ensures Identity(n) == "id=" + value <==> FirstIs(n.attrs, "id", value)
  {
    hide FirstIs, Lacks;
    FirstLocated(n.attrs, "id", value);
    IdentityText(n.attrs);
    KeyTextsApart(value, "");
    var i := IdentityAttr(n.attrs);
    if i >= 0 {
      var other := n.attrs[i].value;
      KeyTextsApart(value, other);
      assert LocalAttr("id")(n.attrs[i]) || LocalAttr("name")(n.attrs[i]) || LocalAttr("key")(n.attrs[i]);
    }
  }

  /** An element with an `id` lands on the first child of its name with the same
      `id`, whatever their other attributes are, and on none if there is none. */
  lemma FoundById(nodes: seq<Node>, target: Node, value: string)
    requires FirstIs(target.attrs, "id", value)
    ensures var k := FindChild(nodes, target);
            if k >= 0
            then && nodes[k].name == target.name && FirstIs(nodes[k].attrs, "id", value)
                 && forall j :: 0 <= j < k && nodes[j].name == target.name ==> !FirstIs(nodes[j].attrs, "id", value)
            else forall j :: 0 <= j < |nodes| && nodes[j].name == target.name ==> !FirstIs(nodes[j].attrs, "id", value)
  {
    hide FirstIs, Identity;
    IdIdentity(target, value);
    assert ("id=" + value)[0] == 'i';
    forall j | 0 <= j < |nodes|
      ensures Identity(nodes[j]) == "id=" + value <==> FirstIs(nodes[j].attrs, "id", value)
      ensures nodes[j] in nodes
    {
      IdIdentity(nodes[j], value);
    }
  }

  /** Text of tabs, line ends and spaces leaves the text that is there; text with
      any visible ASCII character takes its place. */
  lemma TextReplaced(dst: Node, incoming: Node)
    ensures (forall c <- incoming.text :: c == '\t' || c == '\n' || c == '\r' || c == ' ') ==> Merge(dst, incoming).text == dst.text
    ensures (exists c <- incoming.text :: '!' <= c <= '~') ==> Merge(dst, incoming).text == incoming.text
  {
    hide MergeNodes, MergeAttrs;
  }
}
