/** Printing an environment as shell text, read back by the quoting rules of
    sections 2.2.1 and 2.2.2 of the POSIX.1-2017 Shell Command Language. */
module ShellExport {
  import opened Lists

  // ---------------------------------------------------------------- the reader

  predicate NameStart(c: char) { c == '_' || 'A' <= c <= 'Z' || 'a' <= c <= 'z' }

  predicate NameChar(c: char) { NameStart(c) || '0' <= c <= '9' }

  predicate ValidName(s: string) {
    s != "" && NameStart(s[0]) && forall i :: 0 <= i < |s| ==> NameChar(s[i])
  }

  /** Characters that stand for themselves outside quotes. */
  predicate Ordinary(c: char) { NameChar(c) || c in "./-+:,@%" }

  datatype Word = NoWord | Word(value: string, rest: string)

  function Prefixed(c: char, w: Word): Word {
    if w.Word? then Word([c] + w.value, w.rest) else NoWord
  }

  /** A word up to the end of its line: a backslash preserves the next character,
      or joins lines before a newline; anything it cannot be sure of is refused. */
  function ReadWord(s: string): Word
    decreases |s|
  {
    if s == "" then Word("", "")
    else if s[0] == '\n' then Word("", s[1..])
    else if s[0] == '\'' then ReadQuoted(s[1..])
    else if s[0] == '\\' then
      if |s| < 2 || s[1] == '\0' then NoWord
      else if s[1] == '\n' then ReadWord(s[2..]) else Prefixed(s[1], ReadWord(s[2..]))
    else if Ordinary(s[0]) then Prefixed(s[0], ReadWord(s[1..]))
    else NoWord
  }

  /** Inside single quotes every character is preserved up to the next quote. */
  function ReadQuoted(s: string): Word
    decreases |s|
  {
    if s == "" || s[0] == '\0' then NoWord
    else if s[0] == '\'' then ReadWord(s[1..])
    else Prefixed(s[0], ReadQuoted(s[1..]))
  }

  lemma {:induction false} RestShrinks(s: string)
    ensures ReadWord(s).Word? ==> |ReadWord(s).rest| < |s| || s == ""
    ensures ReadQuoted(s).Word? ==> |ReadQuoted(s).rest| < |s|
    decreases |s|
  {
    if s != "" {
      RestShrinks(s[1..]);
      if |s| >= 2 {
        RestShrinks(s[2..]);
      }
    }
  }

  function NameEnd(s: string, i: nat): (n: nat)
    requires i <= |s|
    ensures i <= n <= |s|
    decreases |s| - i
  {
    if i < |s| && NameChar(s[i]) then NameEnd(s, i + 1) else i
  }

  const COMMAND := "export "

  /** The assignments a script of export commands makes, in order. */
  function ReadScript(s: string): Option<seq<(string, string)>>
    decreases |s|
  {
    if s == "" then Some([])
    else if !(COMMAND <= s) then None
    else
      var t := s[|COMMAND|..];
      var n := NameEnd(t, 0);
      if n == |t| || t[n] != '=' || !ValidName(t[..n]) then None
      else
        RestShrinks(t[n + 1..]);
        var w := ReadWord(t[n + 1..]);
        if w.NoWord? then None
        else
          var more := ReadScript(w.rest);
          if more.None? then None else Some([(t[..n], w.value)] + more.value)
  }

  function Environment(assignments: seq<(string, string)>): map<string, string> {
    if assignments == [] then map[]
    else Environment(assignments[..|assignments| - 1])[assignments[|assignments| - 1].0 := assignments[|assignments| - 1].1]
  }

  function ReadEnvironment(script: string): Option<map<string, string>> {
    var a := ReadScript(script);
    if a.None? then None else Some(Environment(a.value))
  }

  // ---------------------------------------------------------------- the printer

  /** Every single quote leaves the quotes, appears escaped, and re-enters. */
  function Escaped(v: string): string {
    if v == "" then "" else (if v[0] == '\'' then "'\\''" else [v[0]]) + Escaped(v[1..])
  }

  function ExportLine(name: string, value: string): string {
    "export " + name + "='" + Escaped(value) + "'\n"
  }

  function Script(env: map<string, string>, order: seq<string>): string
    requires forall k <- order :: k in env
  {
    if order == [] then "" else ExportLine(order[0], env[order[0]]) + Script(env, order[1..])
  }

  /** Each key once, in some order. */
  predicate IsOrder(env: map<string, string>, order: seq<string>) {
    && (forall k <- order :: k in env) && (forall k <- env.Keys :: k in order)
    && (forall i, j :: 0 <= i < j < |order| ==> order[i] != order[j])
  }

  predicate NulFree(v: string) { '\0' !in v }

  /** The values a shell can hold. */
  predicate Printable(env: map<string, string>) {
    forall k <- env.Keys :: NulFree(env[k])
  }

  predicate ValidNames(env: map<string, string>) {
    forall k <- env.Keys :: ValidName(k)
  }

  /** Prints the map in whatever order iteration gives; a shell reads the same
      map back exactly when no value contains a NUL. */
  method BuildShellExport(envVars: map<string, string>) returns (sb: string)
    ensures exists order :: IsOrder(envVars, order) && sb == Script(envVars, order)
    ensures ValidNames(envVars) ==> (ReadEnvironment(sb) == Some(envVars) <==> Printable(envVars))
  {
    sb := "";
    var left := envVars.Keys;
    ghost var order: seq<string> := [];
    while left != {}
      invariant left <= envVars.Keys
      invariant forall k <- order :: k in envVars && k !in left
      invariant forall k <- envVars.Keys :: k in order || k in left
      invariant forall i, j :: 0 <= i < j < |order| ==> order[i] != order[j]
      invariant sb == Script(envVars, order)
      decreases |left|
    {
      var k :| k in left;
      left := left - {k};
      var escaped := ReplaceQuotes(envVars[k]);
      sb := sb + (COMMAND + k + "='" + escaped + "'\n");
      ScriptAppend(envVars, order, k);
      order := order + [k];
    }
    if ValidNames(envVars) {
      ReadsBack(envVars, order);
    }
  }

  method ReplaceQuotes(v: string) returns (escaped: string)
    ensures escaped == Escaped(v)
  {
    escaped := "";
    for i := 0 to |v|
      invariant escaped + Escaped(v[i..]) == Escaped(v)
    {
      assert v[i..][1..] == v[i + 1..];
      escaped := escaped + if v[i] == '\'' then "'\\''" else [v[i]];
    }
    assert v[|v|..] == "" && escaped + "" == escaped;
  }

  // ---------------------------------------------------------------- the round trip

  lemma {:induction false} ScriptAppend(env: map<string, string>, order: seq<string>, k: string)
    requires (forall x <- order :: x in env) && k in env
    ensures forall x <- order + [k] :: x in env
    ensures Script(env, order + [k]) == Script(env, order) + ExportLine(k, env[k])
  {
    hide ExportLine, Escaped;
    if order == [] {
      assert order + [k] == [k] && [k][1..] == [];
    } else {
      ScriptAppend(env, order[1..], k);
      assert (order + [k])[1..] == order[1..] + [k];
    }
  }

  /** An escaped quote: out of the quotes, the quote itself, and in again. */
  lemma EscapedQuoteReadsBack(more: string)
    ensures ReadQuoted("'\\''" + more) == Prefixed('\'', ReadQuoted(more))
  {
    var s := "'\\''" + more;
    var u := "\\''" + more;
    assert s[0] == '\'' && s[1..] == u;
    assert ReadQuoted(s) == ReadWord(u);
    assert u[0] == '\\' && u[1] == '\'' && u[2..] == "'" + more;
    assert ReadWord(u) == Prefixed('\'', ReadWord(u[2..]));
    QuotedWord(more);
  }

  lemma NulFreeParts(v: string)
    requires v != ""
    ensures NulFree(v) <==> v[0] != '\0' && NulFree(v[1..])
  {
  }

  /** A quoted value read back: itself, unless a NUL stops the reader. */
  lemma {:induction false} ValueReadsBack(v: string, rest: string)
    ensures ReadQuoted(Escaped(v) + ("'\n" + rest)) == if NulFree(v) then Word(v, rest) else NoWord
    decreases |v|
  {
    var tail := "'\n" + rest;
    var s := Escaped(v) + tail;
    if v == "" {
      assert s == tail && tail[1..] == "\n" + rest && ("\n" + rest)[1..] == rest;
    } else {
      ValueReadsBack(v[1..], rest);
      NulFreeParts(v);
      var more := Escaped(v[1..]) + tail;
      assert v == [v[0]] + v[1..];
      if v[0] == '\'' {
        assert s == "'\\''" + more;
        EscapedQuoteReadsBack(more);
      } else {
        assert s == [v[0]] + more && s[1..] == more;
      }
    }
  }

  lemma {:induction false} NameReadsBack(t: string, n: nat, i: nat)
    requires i <= n < |t| && t[n] == '=' && forall j :: i <= j < n ==> NameChar(t[j])
    ensures NameEnd(t, i) == n
    decreases n - i
  {
    if i < n {
      NameReadsBack(t, n, i + 1);
    }
  }

  lemma LineReadsBack(name: string, value: string, rest: string)
    requires ValidName(name)
    ensures ReadScript(ExportLine(name, value) + rest)
            == if NulFree(value) && ReadScript(rest).Some? then Some([(name, value)] + ReadScript(rest).value) else None
  {
    hide Escaped, ReadQuoted, ReadWord, NulFree;
    var s := ExportLine(name, value) + rest;
    var quoted := Escaped(value) + ("'\n" + rest);
    var t := name + ("='" + quoted);
    LineParts(name, Escaped(value), rest);
    assert t[..|name|] == name && t[|name|] == '=';
    NameReadsBack(t, |name|, 0);
    assert t[|name| + 1..] == "'" + quoted;
    QuotedWord(quoted);
    ValueReadsBack(value, rest);
  }

  lemma QuotedWord(quoted: string)
    ensures ReadWord("'" + quoted) == ReadQuoted(quoted)
  {
  }

  lemma LineParts(name: string, escaped: string, rest: string)
    ensures (COMMAND + name + "='" + escaped + "'\n") + rest == COMMAND + (name + ("='" + (escaped + ("'\n" + rest))))
    ensures (COMMAND + (name + ("='" + (escaped + ("'\n" + rest)))))[|COMMAND|..] == name + ("='" + (escaped + ("'\n" + rest)))
  {
  }

  function Assigned(env: map<string, string>, order: seq<string>): seq<(string, string)>
    requires forall k <- order :: k in env
  {
    if order == [] then [] else [(order[0], env[order[0]])] + Assigned(env, order[1..])
  }

  lemma {:induction false} ScriptReadsBack(env: map<string, string>, order: seq<string>)
    requires (forall k <- order :: k in env) && forall k <- order :: ValidName(k)
    ensures ReadScript(Script(env, order))
            == if forall k <- order :: NulFree(env[k]) then Some(Assigned(env, order)) else None
  {
    if order != [] {
      ScriptReadsBack(env, order[1..]);
      LineReadsBack(order[0], env[order[0]], Script(env, order[1..]));
      assert order == [order[0]] + order[1..];
    }
  }

  lemma {:induction false} AssignedAppend(env: map<string, string>, order: seq<string>)
    requires order != [] && forall k <- order :: k in env
    ensures var front, last := order[..|order| - 1], order[|order| - 1];
            Assigned(env, order) == Assigned(env, front) + [(last, env[last])]
  {
    if |order| > 1 {
      AssignedAppend(env, order[1..]);
      assert order[1..][..|order| - 2] == order[..|order| - 1][1..];
    } else {
      assert order[1..] == [] && order[..0] == [];
    }
  }

  lemma {:induction false} EnvironmentOf(env: map<string, string>, order: seq<string>)
    requires forall k <- order :: k in env
    ensures var e := Environment(Assigned(env, order));
            (forall k :: k in e <==> k in order) && forall k <- order :: e[k] == env[k]
  {
    if order != [] {
      var front, last := order[..|order| - 1], order[|order| - 1];
      EnvironmentOf(env, front);
      AssignedAppend(env, order);
      var a := Assigned(env, order);
      assert a[..|a| - 1] == Assigned(env, front) && a[|a| - 1] == (last, env[last]);
      assert order == front + [last];
    }
  }

  lemma ReadsBack(env: map<string, string>, order: seq<string>)
    requires IsOrder(env, order) && ValidNames(env)
    ensures ReadEnvironment(Script(env, order)) == Some(env) <==> Printable(env)
  {
    ScriptReadsBack(env, order);
    EnvironmentOf(env, order);
    if Printable(env) {
      assert Environment(Assigned(env, order)) == env;
    }
  }
}
