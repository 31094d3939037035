/** The XML overlay: incoming attributes, text and children are merged into an
    existing tree by element name and identity. */
module XmlMerge {
  import opened Lists

  datatype Name = Name(space: string, local: string)

  datatype Attr = Attr(name: Name, value: string)

  datatype Node = Node(name: Name, attrs: seq<Attr>, text: string, nodes: seq<Node>)

  /** White space as the program's trimming understands it. */
  predicate IsSpace(c: char) {
    c in "\t\n\r " || c == '\U{000B}' || c == '\U{000C}' || c == '\U{0085}' || c == '\U{00A0}' || c == '\U{1680}'
    || '\U{2000}' <= c <= '\U{200A}' || c == '\U{2028}' || c == '\U{2029}' || c == '\U{202F}' || c == '\U{205F}'
    || c == '\U{3000}'
  }

  predicate Blank(text: string) {
    forall c <- text :: IsSpace(c)
  }

  // ---------------------------------------------------------------- identity

  function LocalAttr(key: string): Attr -> bool { (a: Attr) => a.name.local == key }

  function NamedAttr(name: Name): Attr -> bool { (a: Attr) => a.name == name }

  /** The attribute a node is recognised by: the first `id`, else the first
      `name`, else the first `key`, whatever its namespace. */
  function IdentityAttr(attrs: seq<Attr>): (i: int)
    ensures -1 <= i < |attrs|
  {
    var id, name, key := Locate(attrs, LocalAttr("id")), Locate(attrs, LocalAttr("name")), Locate(attrs, LocalAttr("key"));
    if id >= 0 then id else if name >= 0 then name else key
  }

  function IdentityOf(attrs: seq<Attr>): string {
    var i := IdentityAttr(attrs);
    if i < 0 then "" else attrs[i].name.local + "=" + attrs[i].value
  }

  function Identity(n: Node): string { IdentityOf(n.attrs) }

  function SameName(name: Name): Node -> bool { (n: Node) => n.name == name }

  function SameSlot(name: Name, identity: string): Node -> bool {
    (n: Node) => n.name == name && Identity(n) == identity
  }

  /** Exactly one element of the name. */
  predicate Sole(nodes: seq<Node>, name: Name) {
    |Filter(nodes, SameName(name))| == 1
  }

  /** The child an incoming element lands on: by identity, or as the only one of
      its name. */
  function FindChild(nodes: seq<Node>, target: Node): (i: int)
    ensures -1 <= i < |nodes|
    ensures i >= 0 ==> nodes[i].name == target.name && (Identity(target) != "" ==> Identity(nodes[i]) == Identity(target))
  {
    if Identity(target) != "" then Locate(nodes, SameSlot(target.name, Identity(target)))
    else if Sole(nodes, target.name) then SoleFound(nodes, target.name); Locate(nodes, SameName(target.name))
    else -1
  }

  lemma SoleFound(nodes: seq<Node>, name: Name)
    requires Sole(nodes, name)
    ensures Locate(nodes, SameName(name)) >= 0
  {
    FilterMembers(nodes, SameName(name));
    var n := Filter(nodes, SameName(name))[0];
    assert n in Filter(nodes, SameName(name));
    assert n in nodes && SameName(name)(n);
  }

  // ---------------------------------------------------------------- merging

  function MergeAttr(dst: seq<Attr>, a: Attr): seq<Attr> {
    var i := Locate(dst, NamedAttr(a.name));
    if i >= 0 then dst[i := dst[i].(value := a.value)] else dst + [a]
  }

  function MergeAttrs(dst: seq<Attr>, incoming: seq<Attr>): seq<Attr> {
    if incoming == [] then dst
    else MergeAttr(MergeAttrs(dst, incoming[..|incoming| - 1]), incoming[|incoming| - 1])
  }

  function Merge(dst: Node, incoming: Node): Node
    decreases incoming, |incoming.nodes| + 1
  {
    Node(dst.name, MergeAttrs(dst.attrs, incoming.attrs), if Blank(incoming.text) then dst.text else incoming.text,
         MergeNodes(dst.nodes, incoming, |incoming.nodes|))
  }

  /** The children after the first `n` incoming ones. */
  function MergeNodes(nodes: seq<Node>, incoming: Node, n: nat): seq<Node>
    requires n <= |incoming.nodes|
    decreases incoming, n
  {
    if n == 0 then nodes
    else
      var before := MergeNodes(nodes, incoming, n - 1);
      var i := FindChild(before, incoming.nodes[n - 1]);
      if i < 0 then before + [incoming.nodes[n - 1]]
      else before[i := Merge(before[i], incoming.nodes[n - 1])]
  }

  /** One element of the tree, merged into in place. */
  class Element {
    var name: Name
    var attrs: seq<Attr>
    var text: string
    var nodes: seq<Node>

    function Value(): Node
      reads this
    {
      Node(name, attrs, text, nodes)
    }

    constructor (n: Node)
      ensures Value() == n
    {
      name, attrs, text, nodes := n.name, n.attrs, n.text, n.nodes;
    }

    method PutAttr(a: Attr)
      modifies this`attrs
      ensures attrs == MergeAttr(old(attrs), a)
    {
      var i := 0;
      while i < |attrs|
        invariant 0 <= i <= |attrs| && attrs == old(attrs)
        invariant forall j :: 0 <= j < i ==> attrs[j].name != a.name
      {
        if attrs[i].name == a.name {
          LocateFirst(attrs, NamedAttr(a.name), i);
          attrs := attrs[i := attrs[i].(value := a.value)];
          return;
        }
        i := i + 1;
      }
      assert forall x :: x in attrs ==> !NamedAttr(a.name)(x);
      attrs := attrs + [a];
    }

    static method IdentityText(n: Node) returns (id: string)
      ensures id == Identity(n)
    {
      var keys := ["id", "name", "key"];
      var k := 0;
      while k < 3
        invariant 0 <= k <= 3
        invariant forall m :: 0 <= m < k ==> Locate(n.attrs, LocalAttr(keys[m])) < 0
      {
        var i := 0;
        while i < |n.attrs|
          invariant 0 <= i <= |n.attrs|
          invariant forall j :: 0 <= j < i ==> n.attrs[j].name.local != keys[k]
        {
          if n.attrs[i].name.local == keys[k] {
            LocateFirst(n.attrs, LocalAttr(keys[k]), i);
            return keys[k] + "=" + n.attrs[i].value;
          }
          i := i + 1;
        }
        assert forall x :: x in n.attrs ==> !LocalAttr(keys[k])(x);
        k := k + 1;
      }
      assert Locate(n.attrs, LocalAttr(keys[0])) < 0 && Locate(n.attrs, LocalAttr(keys[1])) < 0
             && Locate(n.attrs, LocalAttr(keys[2])) < 0;
      return "";
    }

    /** One pass that looks for the identity and counts the namesakes. */
    method Find(target: Node) returns (idx: int)
      ensures idx == FindChild(nodes, target)
    {
      var id := IdentityText(target);
      var only, count := -1, 0;
      var i := 0;
      while i < |nodes|
        invariant 0 <= i <= |nodes| && count == |Filter(nodes[..i], SameName(target.name))|
        invariant id != "" ==> forall j :: 0 <= j < i ==> !SameSlot(target.name, id)(nodes[j])
        invariant id == "" && count == 0 ==> forall j :: 0 <= j < i ==> nodes[j].name != target.name
        invariant id == "" && count == 1 ==> 0 <= only < i && nodes[only].name == target.name
                                             && forall j :: 0 <= j < only ==> nodes[j].name != target.name
      {
        FilterStep(nodes, SameName(target.name), i);
        if nodes[i].name != target.name {
          i := i + 1;
          continue;
        }
        count := count + 1;
        if id != "" {
          var own := IdentityText(nodes[i]);
          if own == id {
            LocateFirst(nodes, SameSlot(target.name, id), i);
            return i;
          }
        }
        if id == "" {
          only := i;
        }
        i := i + 1;
      }
      assert nodes[..|nodes|] == nodes;
      if id == "" && count == 1 {
        LocateFirst(nodes, SameName(target.name), only);
        return only;
      }
      if id != "" {
        assert forall x :: x in nodes ==> !SameSlot(target.name, id)(x);
      }
      return -1;
    }

    method MergeFrom(incoming: Node)
      modifies this
      ensures Value() == Merge(old(Value()), incoming)
      decreases incoming, 1
    {
      hide MergeNodes, MergeAttrs;
      PutAttrs(incoming.attrs);
      if !Blank(incoming.text) {
        text := incoming.text;
      }
      MergeChildren(incoming);
    }

    method PutAttrs(incoming: seq<Attr>)
      modifies this`attrs
      ensures attrs == MergeAttrs(old(attrs), incoming)
    {
      for a := 0 to |incoming|
        invariant attrs == MergeAttrs(old(attrs), incoming[..a])
      {
        assert incoming[..a + 1][..a] == incoming[..a];
        PutAttr(incoming[a]);
      }
      assert incoming[..|incoming|] == incoming;
    }

    method MergeChildren(incoming: Node)
      modifies this`nodes
      ensures nodes == MergeNodes(old(nodes), incoming, |incoming.nodes|)
      decreases incoming, 0
    {
      hide FindChild, Merge;
      for n := 0 to |incoming.nodes|
        invariant nodes == MergeNodes(old(nodes), incoming, n)
      {
        var child := incoming.nodes[n];
        var idx := Find(child);
        if idx < 0 {
          nodes := nodes + [child];
        } else {
          var inner := new Element(nodes[idx]);
          inner.MergeFrom(child);
          nodes := nodes[idx := inner.Value()];
        }
      }
    }
  }
}
