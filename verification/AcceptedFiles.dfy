/** What it means that a metadata file is accepted: what an accepted file can be
    relied on for, and what may be added to it without it being refused. */
module AcceptedFiles {
  import opened Lists
  import opened BrokerPolicy
  import opened Metadata

  /** Letters and digits. */
  predicate Plain(c: char) { 'A' <= c <= 'Z' || 'a' <= c <= 'z' || '0' <= c <= '9' }

  /** A binding's name cannot climb out of a directory, start with a dot, a dash
      or a slash, hold white space, control characters, quotes or backslashes,
      or be longer than 128. */
  lemma NamesAreSafe(f: MetaFile, b: Binding)
    requires ValidFile(f) && b in f.bindings
    ensures 1 <= |b.name| <= 128 && Plain(b.name[0])
    ensures forall i, j :: 0 <= i < |b.name| && j == i + 1 < |b.name| && b.name[i] == '.' ==> b.name[j] != '.'
    ensures forall c <- b.name :: '-' <= c <= 'z' && c != '\\' && c != ':' && c != '@' && c != '^' && c != '`'
    ensures b.id != "" && b.secretId != ""
  {
    forall c | c in b.name
      ensures NameChar(c)
    {
      var i :| 0 <= i < |b.name| && b.name[i] == c;
    }
  }

  /** Ids and names are unique, and every reference by id is to one binding. */
  lemma ReferencesResolve(f: MetaFile)
    requires ValidFile(f)
    ensures forall i, j :: 0 <= i < |f.bindings| && 0 <= j < |f.bindings| && f.bindings[i].id == f.bindings[j].id ==> i == j
    ensures forall i, j :: 0 <= i < |f.bindings| && 0 <= j < |f.bindings| && f.bindings[i].name == f.bindings[j].name ==> i == j
    ensures forall i, j :: 0 <= i < |f.grants| && 0 <= j < |f.grants| && f.grants[i].id == f.grants[j].id ==> i == j
    ensures forall i, j :: 0 <= i < |f.pending| && 0 <= j < |f.pending| && f.pending[i].grantId == f.pending[j].grantId ==> i == j
    ensures forall g <- f.grants :: exists b <- f.bindings :: b.id == g.bindingId
    ensures forall i <- f.pending :: exists b <- f.bindings :: b.id == i.bindingId
  {
    hide ValidBinding, ValidClient, AllKnown;
  }

  /** A grant always pins a user and an executable, by path or by hash, and one
      for a whole interpreter was acknowledged and names an interpreter. */
  lemma GrantsArePinned(f: MetaFile, g: Grant)
    requires ValidFile(f) && g in f.grants
    ensures g.id != "" && g.name != "" && g.client.uid >= 0
    ensures g.client.executable.path != "" || g.client.hash != ""
    ensures g.client.scope == ScopeUnset || g.client.scope == Dedicated || g.client.scope == InterpreterWide
    ensures g.client.scope == InterpreterWide ==> g.client.acknowledged && g.client.executable.interpreter
    ensures forall c <- g.capabilities :: c == Resolve || c == Rotate
  {
    assert ValidGrant(g, f.bindings);
  }

  lemma TwoKinds(cs: seq<Capability>)
    requires forall k :: 0 <= k < |cs| ==> cs[k] == Resolve || cs[k] == Rotate
    ensures |cs| <= 2 || exists j, k :: 0 <= j < k < |cs| && cs[j] == cs[k]
  {
    if |cs| > 2 {
      assert cs[0] == cs[1] || cs[0] == cs[2] || cs[1] == cs[2];
    }
  }

  /** An intent asks for something, once, and knows where a bit came from. */
  lemma IntentsAreComplete(f: MetaFile, i: Intent)
    requires ValidFile(f) && i in f.pending
    ensures i.grantId != "" && i.secretId != "" && i.createdAt != 0
    ensures i.capabilities == [Resolve] || i.capabilities == [Rotate] || i.capabilities == [Resolve, Rotate]
            || i.capabilities == [Rotate, Resolve]
    ensures i.priorResolveSource in {NoSource, Administrative, FromGrant}
            && i.priorRotateSource in {NoSource, Administrative, FromGrant}
  {
    assert ValidIntent(i, f.bindings);
    var cs := i.capabilities;
    forall k | 0 <= k < |cs|
      ensures cs[k] == Resolve || cs[k] == Rotate
    {
      assert cs[k] in cs;
    }
    TwoKinds(cs);
    assert |cs| == 1 ==> cs == [cs[0]];
    assert |cs| == 2 ==> cs == [cs[0], cs[1]];
  }

  lemma MoreBindings(bs: seq<Binding>, b: Binding, id: string)
    ensures HasBinding(bs + [b], id) <==> HasBinding(bs, id) || id == b.id
  {
    if HasBinding(bs, id) {
      var x :| x in bs && x.id == id;
      assert x in bs + [b];
    }
    assert b in bs + [b];
  }

  /** A binding with a name of letters and digits and free name and id. */
  lemma BindingAccepted(f: MetaFile, b: Binding)
    requires ValidFile(f) && b.id != "" && b.secretId != "" && 1 <= |b.name| <= 128 && forall c <- b.name :: Plain(c)
    requires forall x <- f.bindings :: x.id != b.id && x.name != b.name
    ensures ValidFile(f.(bindings := f.bindings + [b]))
  {
    var bs := f.bindings + [b];
    forall id
      ensures HasBinding(f.bindings, id) ==> HasBinding(bs, id)
    {
      MoreBindings(f.bindings, b, id);
    }
    assert forall i :: 0 <= i < |b.name| ==> b.name[i] in b.name;
    assert forall i :: 0 <= i < |f.bindings| ==> f.bindings[i] in f.bindings;
  }

  /** A grant and its intent with new ids, on a binding that is there, for a
      pinned client and some known capabilities. */
  lemma PairAccepted(f: MetaFile, g: Grant, i: Intent)
    requires ValidFile(f) && g.id != "" && g.name != "" && i.grantId != "" && i.secretId != "" && i.createdAt != 0
    requires forall x <- f.grants :: x.id != g.id
    requires forall x <- f.pending :: x.grantId != i.grantId
    requires exists b <- f.bindings :: b.id == g.bindingId
    requires exists b <- f.bindings :: b.id == i.bindingId
    requires g.client.uid >= 0 && (g.client.executable.path != "" || g.client.hash != "")
    requires g.client.scope == ScopeUnset || g.client.scope == Dedicated
             || (g.client.scope == InterpreterWide && g.client.acknowledged && g.client.executable.interpreter)
    requires forall c <- g.capabilities :: c == Resolve || c == Rotate
    requires i.capabilities == [Resolve] || i.capabilities == [Rotate] || i.capabilities == [Resolve, Rotate]
             || i.capabilities == [Rotate, Resolve]
    requires i.priorResolveSource in {NoSource, Administrative, FromGrant}
             && i.priorRotateSource in {NoSource, Administrative, FromGrant}
    ensures ValidFile(f.(grants := f.grants + [g], pending := f.pending + [i]))
  {
    hide ValidBinding, DistinctBindings;
    assert ValidGrant(g, f.bindings) && ValidIntent(i, f.bindings);
    assert forall k :: 0 <= k < |f.grants| ==> f.grants[k] in f.grants;
    assert forall k :: 0 <= k < |f.pending| ==> f.pending[k] in f.pending;
  }
}
