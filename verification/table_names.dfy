/** The table-reference extractor `get_table_names`: a flag-driven scan over
    the top-level tokens of every statement sqlparse produced for a query. */
module TableNames {
  import opened Wrappers
  import opened Sequences

  /** A top-level token of a parsed statement, reduced to what the scan looks at.
      `Identifier` and `IdentifierList` carry the real names sqlparse resolves
      (`get_real_name()`, which may be absent); `Keyword` is a token whose
      ttype is exactly `Keyword`; everything else is `Other`. */
  datatype Token =
    | Identifier(realName: Option<string>)
    | IdentifierList(realNames: seq<Option<string>>)
    | Keyword(value: string)
    | Other

  type Statement = seq<Token>

  function UpperChar(c: char): char {
    if 'a' <= c <= 'z' then (c as int - 32) as char else c
  }

  /** Upper-casing of the ASCII letters. */
  function Upper(s: string): (u: string)
    ensures |u| == |s|
  {
    seq(|s|, i requires 0 <= i < |s| => UpperChar(s[i]))
  }

  /** The tokens that set the table-context flag: a plain FROM or JOIN
      keyword, in any letter case. */
  predicate IsFromOrJoin(t: Token)
    ensures IsFromOrJoin(t) ==> t.Keyword? && |t.value| == 4
  {
    t.Keyword? && (Upper(t.value) == "FROM" || Upper(t.value) == "JOIN")
  }

  /** The name an optional real name contributes: nothing when it is absent
      or empty (Python's `if table_name:`). */
  function NameOf(name: Option<string>): seq<string> {
    if name.Some? && name.value != "" then [name.value] else []
  }

  /** The real names of an identifier list, in order, empty ones skipped. */
  function RealNames(names: seq<Option<string>>): (r: seq<string>)
    ensures |r| <= |names|
  {
    if names == [] then []
    else RealNames(names[..|names| - 1]) + NameOf(names[|names| - 1])
  }

  /** What a token contributes once the flag is set. */
  function Names(t: Token): seq<string> {
    match t
    case Identifier(name) => NameOf(name)
    case IdentifierList(names) => RealNames(names)
    case _ => []
  }

  /** The top-level tokens of all statements, statement after statement. */
  function Flatten(statements: seq<Statement>): seq<Token> {
    if statements == [] then [] else statements[0] + Flatten(statements[1..])
  }

  /** Whether a FROM or JOIN keyword occurs among the tokens. */
  predicate FromSeen(ts: seq<Token>) {
    ts != [] && (IsFromOrJoin(ts[0]) || FromSeen(ts[1..]))
  }

  /** The scan itself, from a given state of the table-context flag: a token
      contributes its names when the flag was set by an EARLIER token, and the
      flag, once set, is never cleared. */
  function Scan(ts: seq<Token>, fromSeen: bool): seq<string>
  {
    if ts == [] then []
    else (if fromSeen then Names(ts[0]) else []) + Scan(ts[1..], fromSeen || IsFromOrJoin(ts[0]))
  }

  /** The table names `get_table_names` returns for a parsed query: the scan of
      every statement's top-level tokens, with the flag initially clear and
      carried from one statement to the next. */
  function TablesIn(statements: seq<Statement>): seq<string> {
    Scan(Flatten(statements), false)
  }

  // ---------------------------------------------------------------------
  // Reference definition: the names of everything after the first keyword.

  /** The index of the first FROM or JOIN keyword, if any. */
  function FirstFromJoin(ts: seq<Token>): (r: Option<nat>)
    ensures r.Some? ==> r.value < |ts| && IsFromOrJoin(ts[r.value])
    ensures r.Some? ==> forall i :: 0 <= i < r.value ==> !IsFromOrJoin(ts[i])
    ensures r.None? ==> forall i :: 0 <= i < |ts| ==> !IsFromOrJoin(ts[i])
  {
    if ts == [] then None
    else if IsFromOrJoin(ts[0]) then Some(0)
    else
      var rest := FirstFromJoin(ts[1..]);
      assert forall i :: 1 <= i < |ts| ==> ts[i] == ts[1..][i - 1];
      if rest.None? then None else Some(rest.value + 1)
  }

  /** The names of every token, in order, without deduplication. */
  function Contributions(ts: seq<Token>): (r: seq<string>)
  {
    if ts == [] then [] else Names(ts[0]) + Contributions(ts[1..])
  }

  lemma {:induction false} RealNamesNonEmpty(names: seq<Option<string>>)
    ensures forall i :: 0 <= i < |RealNames(names)| ==> RealNames(names)[i] != ""
  {
    if names != [] {
      RealNamesNonEmpty(names[..|names| - 1]);
    }
  }

  /** No name the scan reports is empty. */
  lemma {:induction false} ScanNonEmpty(ts: seq<Token>, fromSeen: bool)
    ensures forall i :: 0 <= i < |Scan(ts, fromSeen)| ==> Scan(ts, fromSeen)[i] != ""
  {
    if ts != [] {
      ScanNonEmpty(ts[1..], fromSeen || IsFromOrJoin(ts[0]));
      if ts[0].IdentifierList? {
        RealNamesNonEmpty(ts[0].realNames);
      }
    }
  }

  /** With the flag set, every token contributes. */
  lemma {:induction false} ScanWhenSeen(ts: seq<Token>)
    ensures Scan(ts, true) == Contributions(ts)
  {
    if ts != [] {
      ScanWhenSeen(ts[1..]);
    }
  }

  /** The flag is never reset: the tokens of `b` are scanned with the flag as
      the tokens of `a` left it, even across statement boundaries. */
  lemma {:induction false} ScanAppend(a: seq<Token>, b: seq<Token>, fromSeen: bool)
    ensures Scan(a + b, fromSeen) == Scan(a, fromSeen) + Scan(b, fromSeen || FromSeen(a))
  {
    if a == [] {
      assert a + b == b;
    } else {
      var seen := fromSeen || IsFromOrJoin(a[0]);
      var head := if fromSeen then Names(a[0]) else [];
      assert (a + b)[0] == a[0] && (a + b)[1..] == a[1..] + b;
      ScanAppend(a[1..], b, seen);
      assert seen || FromSeen(a[1..]) <==> fromSeen || FromSeen(a);
      AppendAssoc(head, Scan(a[1..], seen), Scan(b, fromSeen || FromSeen(a)));
    }
  }

  /** The scan agrees with the reference definition: nothing when no FROM or
      JOIN keyword occurs, and otherwise exactly the names of the tokens
      strictly after the first such keyword. */
  lemma {:induction false} ScanIsAfterFirstKeyword(ts: seq<Token>)
    ensures FirstFromJoin(ts).None? ==> Scan(ts, false) == []
    ensures FirstFromJoin(ts).Some? ==> Scan(ts, false) == Contributions(ts[FirstFromJoin(ts).value + 1..])
  {
    if ts != [] {
      if IsFromOrJoin(ts[0]) {
        ScanWhenSeen(ts[1..]);
      } else {
        ScanIsAfterFirstKeyword(ts[1..]);
        var rest := FirstFromJoin(ts[1..]);
        if rest.Some? {
          assert ts[rest.value + 1 + 1..] == ts[1..][rest.value + 1..];
        }
      }
    }
  }

  /** `get_table_names` on a parsed query, stated on statements: empty when no
      statement has a top-level FROM or JOIN keyword, otherwise the names of
      all top-level tokens after the first one, in order. */
  lemma TablesInIsAfterFirstKeyword(statements: seq<Statement>)
    ensures FirstFromJoin(Flatten(statements)).None? ==> TablesIn(statements) == []
    ensures FirstFromJoin(Flatten(statements)).Some? ==>
      var k := FirstFromJoin(Flatten(statements)).value;
      TablesIn(statements) == Contributions(Flatten(statements)[k + 1..])
  {
    ScanIsAfterFirstKeyword(Flatten(statements));
  }

  /** A later statement is scanned with the flag as the earlier statements
      left it: once an earlier statement set it, all of its identifiers
      contribute. */
  lemma {:induction false} TablesInNextStatement(statements: seq<Statement>, s: Statement)
    ensures TablesIn(statements + [s]) ==
      TablesIn(statements) + (if FromSeen(Flatten(statements)) then Contributions(s) else Scan(s, false))
  {
    FlattenAppend(statements, s);
    ScanAppend(Flatten(statements), s, false);
    ScanWhenSeen(s);
  }

  lemma {:induction false} FlattenAppend(statements: seq<Statement>, s: Statement)
    ensures Flatten(statements + [s]) == Flatten(statements) + s
  {
    if statements == [] {
      assert [s][1..] == [];
      assert statements + [s] == [s];
    } else {
      assert (statements + [s])[1..] == statements[1..] + [s];
      FlattenAppend(statements[1..], s);
    }
  }

  /** One step of the scan for a token seen once the flag is set: an
      identifier adds its real name, an identifier list the real names of its
      identifiers in order, and empty or absent names are skipped. */
  method AppendNames(tables: seq<string>, token: Token) returns (tables': seq<string>)
    ensures tables' == tables + Names(token)
  {
    tables' := tables;
    match token
    case Identifier(name) =>
      if name.Some? && name.value != "" {
        tables' := tables' + [name.value];
      }
    case IdentifierList(names) =>
      var k := 0;
      while k < |names|
        invariant 0 <= k <= |names|
        invariant tables' == tables + RealNames(names[..k])
      {
        var name := names[k];
        if name.Some? && name.value != "" {
          tables' := tables' + [name.value];
        }
        assert names[..k + 1][..k] == names[..k];
        k := k + 1;
      }
      assert names[..k] == names;
    case _ =>
  }

  /** One token of the scan moves from the pending tokens to the names found. */
  lemma ScanStep(found: seq<string>, ts: seq<Token>, fromSeen: bool)
    requires ts != []
    ensures found + Scan(ts, fromSeen) ==
      (found + (if fromSeen then Names(ts[0]) else [])) + Scan(ts[1..], fromSeen || IsFromOrJoin(ts[0]))
  {
    AppendAssoc(found, if fromSeen then Names(ts[0]) else [], Scan(ts[1..], fromSeen || IsFromOrJoin(ts[0])));
  }

  /** Model of `get_table_names(query)`: `parse` stands for `sqlparse.parse`. */
  method GetTableNames(query: string, parse: string -> seq<Statement>) returns (tables: seq<string>)
    ensures tables == TablesIn(parse(query))
  {
    var parsed := parse(query);
    tables := [];
    var fromSeen := false;
    var i := 0;
    while i < |parsed|
      invariant 0 <= i <= |parsed|
      invariant tables + Scan(Flatten(parsed[i..]), fromSeen) == TablesIn(parsed)
    {
      var statement := parsed[i];
      ghost var later := Flatten(parsed[i + 1..]);
      assert parsed[i..][1..] == parsed[i + 1..];
      var j := 0;
      while j < |statement|
        invariant 0 <= j <= |statement|
        invariant tables + Scan(statement[j..] + later, fromSeen) == TablesIn(parsed)
      {
        var token := statement[j];
        ghost var rest := statement[j..] + later;
        assert rest[0] == token && rest[1..] == statement[j + 1..] + later;
        ScanStep(tables, rest, fromSeen);
        if fromSeen {
          tables := AppendNames(tables, token);
        }
        if IsFromOrJoin(token) {
          fromSeen := true;
        }
        j := j + 1;
      }
      assert statement[j..] + later == later;
      i := i + 1;
    }
  }
}
