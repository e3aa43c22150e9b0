/** The fragment of SQLite that the two menu stores use: the text of the
    statements they send, the binding of `?` parameters, the LIKE operator, and
    the check SQLite makes when an INSERT is prepared. */
module Sql {
  import opened Text

  datatype SqlError =
    | NoSuchTable(table: string)
    | ValuesColumnsMismatch(values: nat, columns: nat)
    | BindingMismatch(expected: nat, given: nat)
    | SyntaxError

  /** One conjunct of a WHERE clause, with the number of `?` it holds. */
  datatype Cond =
    | CategoryIn(arity: nat)   // category IN (?, ?, ...)
    | NameLike                 // name LIKE ?

  /** `SELECT * FROM table [WHERE c1 AND c2 ...]`. */
  datatype Select = Select(table: string, conds: seq<Cond>)

  /** `?, ?, ..., ?` with n marks: `Array(n).fill("?").join(", ")`. */
  function Marks(n: nat): string
  {
    if n == 0 then "" else if n == 1 then "?" else Marks(n - 1) + ", ?"
  }

  function RenderCond(c: Cond): string
  {
    match c
    case CategoryIn(n) => "category IN (" + Marks(n) + ")"
    case NameLike => "name LIKE ?"
  }

  function RenderConds(cs: seq<Cond>): string
    requires |cs| >= 1
  {
    if |cs| == 1 then RenderCond(cs[0]) else RenderCond(cs[0]) + " AND " + RenderConds(cs[1..])
  }

  function RenderSelect(q: Select): string
  {
    "SELECT * FROM " + q.table + (if q.conds == [] then "" else " WHERE " + RenderConds(q.conds))
  }

  /** Number of parameters a condition binds. */
  function CondArity(c: Cond): nat
  {
    match c
    case CategoryIn(n) => n
    case NameLike => 1
  }

  function Arity(cs: seq<Cond>): nat
  {
    if cs == [] then 0 else CondArity(cs[0]) + Arity(cs[1..])
  }

  /** Occurrences of a character in a string. */
  function Count(s: string, c: char): nat
  {
    if s == [] then 0 else (if s[0] == c then 1 else 0) + Count(s[1..], c)
  }

  lemma {:induction false} CountAppend(a: string, b: string, c: char)
    ensures Count(a + b, c) == Count(a, c) + Count(b, c)
  {
    if a == [] {
      assert a + b == b;
    } else {
      assert (a + b)[0] == a[0] && (a + b)[1..] == a[1..] + b;
      CountAppend(a[1..], b, c);
    }
  }

  lemma {:induction false} CountAbsent(s: string, c: char)
    requires c !in s
    ensures Count(s, c) == 0
  {
    if s != [] {
      assert forall x :: x in s[1..] ==> x in s;
      CountAbsent(s[1..], c);
    }
  }

  lemma {:induction false} MarksCount(n: nat)
    ensures Count(Marks(n), '?') == n
  {
    if n > 1 {
      MarksCount(n - 1);
      CountAppend(Marks(n - 1), ", ?", '?');
      CountAppend(", ", "?", '?');
      assert ", ?" == ", " + "?";
      CountAbsent(", ", '?');
    }
  }

  /** Prefixing or suffixing text without `?` keeps the count. */
  lemma {:induction false} CountAround(pre: string, mid: string, post: string, c: char)
    requires c !in pre && c !in post
    ensures Count(pre + mid + post, c) == Count(mid, c)
  {
    CountAppend(pre, mid, c);
    CountAppend(pre + mid, post, c);
    CountAbsent(pre, c);
    CountAbsent(post, c);
  }

  /** The rendered text of a SELECT holds exactly as many `?` as its conditions bind,
      provided the table name holds none. */
  lemma {:induction false} SelectPlaceholders(q: Select)
    requires Count(q.table, '?') == 0
    ensures Count(RenderSelect(q), '?') == Arity(q.conds)
  {
    var where := if q.conds == [] then "" else " WHERE " + RenderConds(q.conds);
    assert Count(where, '?') == Arity(q.conds) by {
      if q.conds != [] {
        CondsPlaceholders(q.conds);
        CountAround(" WHERE ", RenderConds(q.conds), "", '?');
        assert " WHERE " + RenderConds(q.conds) + "" == where;
      }
    }
    CountAround("SELECT * FROM ", q.table, "", '?');
    assert "SELECT * FROM " + q.table + "" == "SELECT * FROM " + q.table;
    CountAppend("SELECT * FROM " + q.table, where, '?');
  }

  lemma {:induction false} CondPlaceholders(c: Cond)
    ensures Count(RenderCond(c), '?') == CondArity(c)
  {
    match c
    case CategoryIn(n) =>
      MarksCount(n);
      CountAround("category IN (", Marks(n), ")", '?');
    case NameLike =>
      assert "name LIKE ?" == "name LIKE " + "?" + "";
      CountAround("name LIKE ", "?", "", '?');
  }

  lemma {:induction false} CondsPlaceholders(cs: seq<Cond>)
    requires |cs| >= 1
    ensures Count(RenderConds(cs), '?') == Arity(cs)
  {
    var c := cs[0];
    CondPlaceholders(c);
    if |cs| > 1 {
      CondsPlaceholders(cs[1..]);
      CountAppend(RenderCond(c), " AND ", '?');
      CountAppend(RenderCond(c) + " AND ", RenderConds(cs[1..]), '?');
      CountAbsent(" AND ", '?');
    }
  }

  /** The longest prefix made of ASCII letters (an identifier such as a table name). */
  function Identifier(s: string): (id: string)
    ensures |id| <= |s| && id == s[..|id|] && AllLetters(id)
    ensures |id| < |s| ==> !IsAsciiLetter(s[|id|])
  {
    if s != [] && IsAsciiLetter(s[0]) then [s[0]] + Identifier(s[1..]) else ""
  }

  lemma {:induction false} IdentifierOf(id: string, rest: string)
    requires AllLetters(id)
    requires rest == [] || !IsAsciiLetter(rest[0])
    ensures Identifier(id + rest) == id
  {
    if id != [] {
      assert (id + rest)[0] == id[0] && (id + rest)[1..] == id[1..] + rest;
      IdentifierOf(id[1..], rest);
    } else {
      assert id + rest == rest;
    }
  }

  /** Reads `?` followed by any number of `, ?`; returns how many marks it read. */
  function ParseMarks(s: string): (r: (nat, string))
    ensures |r.1| <= |s|
  {
    match StripPrefix(s, "?")
    case None => (0, s)
    case Some(rest) => var m := ParseMoreMarks(rest); (m.0 + 1, m.1)
  }

  function ParseMoreMarks(s: string): (r: (nat, string))
    ensures |r.1| <= |s|
    decreases |s|
  {
    match StripPrefix(s, ", ?")
    case None => (0, s)
    case Some(rest) => var m := ParseMoreMarks(rest); (m.0 + 1, m.1)
  }

  /** `", ?"` repeated n times. */
  function MoreMarks(n: nat): string
  {
    if n == 0 then "" else ", ?" + MoreMarks(n - 1)
  }

  lemma {:induction false} MoreMarksSnoc(n: nat)
    ensures MoreMarks(n) + ", ?" == ", ?" + MoreMarks(n)
  {
    if n > 0 {
      MoreMarksSnoc(n - 1);
      calc {
        MoreMarks(n) + ", ?";
        (", ?" + MoreMarks(n - 1)) + ", ?";
        ", ?" + (MoreMarks(n - 1) + ", ?");
        ", ?" + (", ?" + MoreMarks(n - 1));
        ", ?" + MoreMarks(n);
      }
    }
  }

  /** Marks are built by appending `, ?` at the end; read from the front they
      are one `?` and n-1 times `, ?`. */
  lemma {:induction false} MarksFront(n: nat)
    requires n >= 1
    ensures Marks(n) == "?" + MoreMarks(n - 1)
  {
    if n > 1 {
      MarksFront(n - 1);
      MoreMarksSnoc(n - 2);
      calc {
        Marks(n);
        Marks(n - 1) + ", ?";
        ("?" + MoreMarks(n - 2)) + ", ?";
        "?" + (MoreMarks(n - 2) + ", ?");
        "?" + (", ?" + MoreMarks(n - 2));
      }
    } else {
      assert "?" + MoreMarks(0) == "?" + "";
    }
  }

  lemma {:induction false} ParseMoreMarksOf(n: nat, rest: string)
    requires StripPrefix(rest, ", ?").None?
    ensures ParseMoreMarks(MoreMarks(n) + rest) == (n, rest)
  {
    if n == 0 {
      assert MoreMarks(0) + rest == rest;
    } else {
      assert MoreMarks(n) + rest == ", ?" + (MoreMarks(n - 1) + rest);
      StripPrefixOf(", ?", MoreMarks(n - 1) + rest);
      ParseMoreMarksOf(n - 1, rest);
    }
  }

  lemma {:induction false} ParseMarksOf(n: nat, rest: string)
    requires StripPrefix(rest, "?").None? && StripPrefix(rest, ", ?").None?
    ensures ParseMarks(Marks(n) + rest) == (n, rest)
  {
    if n == 0 {
      assert Marks(0) + rest == rest;
    } else {
      var more := MoreMarks(n - 1) + rest;
      MarksFront(n);
      Assoc("?", MoreMarks(n - 1), rest);
      StripPrefixOf("?", more);
      ParseMoreMarksOf(n - 1, rest);
      assert StripPrefix(Marks(n) + rest, "?") == Some(more);
    }
  }

  /** Reads one condition from the front of `s`. */
  function ParseCond(s: string): (r: Option<(Cond, string)>)
    ensures r.Some? ==> |r.value.1| < |s|
  {
    match StripPrefix(s, "name LIKE ?")
    case Some(rest) => Some((NameLike, rest))
    case None =>
      match StripPrefix(s, "category IN (")
      case None => None
      case Some(rest) =>
        var (n, after) := ParseMarks(rest);
        match StripPrefix(after, ")")
        case None => None
        case Some(tail) => Some((CategoryIn(n), tail))
  }

  /** Reads conditions separated by ` AND ` up to the end of `s`. */
  function ParseConds(s: string): Option<seq<Cond>>
    decreases |s|
  {
    match ParseCond(s)
    case None => None
    case Some((c, rest)) =>
      if rest == [] then Some([c])
      else
        match StripPrefix(rest, " AND ")
        case None => None
        case Some(more) =>
          match ParseConds(more)
          case None => None
          case Some(cs) => Some([c] + cs)
  }

  /** What SQLite makes of the statement text: `SELECT * FROM t` with an optional
      WHERE clause; any other text is a syntax error. */
  function ParseSelect(s: string): Option<Select>
  {
    match StripPrefix(s, "SELECT * FROM ")
    case None => None
    case Some(rest) =>
      var table := Identifier(rest);
      var after := rest[|table|..];
      if table == [] then None
      else if after == [] then Some(Select(table, []))
      else
        match StripPrefix(after, " WHERE ")
        case None => None
        case Some(where) =>
          match ParseConds(where)
          case None => None
          case Some(cs) => Some(Select(table, cs))
  }

  lemma ParseCondOf(c: Cond, rest: string)
    requires rest == [] || rest[0] == ' '
    ensures ParseCond(RenderCond(c) + rest) == Some((c, rest))
  {
    match c
    case NameLike =>
      StripPrefixOf("name LIKE ?", rest);
    case CategoryIn(n) =>
      var s := RenderCond(c) + rest;
      assert StripPrefix(s, "name LIKE ?").None? by {
        assert s[0] == 'c';
      }
      assert s == "category IN (" + (Marks(n) + (")" + rest));
      StripPrefixOf("category IN (", Marks(n) + (")" + rest));
      ParseMarksOf(n, ")" + rest);
      StripPrefixOf(")", rest);
  }

  lemma {:induction false} ParseCondsOf(cs: seq<Cond>)
    requires |cs| >= 1
    ensures ParseConds(RenderConds(cs)) == Some(cs)
  {
    if |cs| == 1 {
      assert RenderCond(cs[0]) + "" == RenderConds(cs);
      ParseCondOf(cs[0], "");
      assert cs == [cs[0]];
    } else {
      var more := RenderConds(cs[1..]);
      assert RenderConds(cs) == RenderCond(cs[0]) + (" AND " + more);
      ParseCondOf(cs[0], " AND " + more);
      StripPrefixOf(" AND ", more);
      ParseCondsOf(cs[1..]);
      assert [cs[0]] + cs[1..] == cs;
    }
  }

  /** Round trip: SQLite reads back the statement the text was rendered from. */
  lemma ParseSelectOf(q: Select)
    requires q.table != [] && AllLetters(q.table)
    ensures ParseSelect(RenderSelect(q)) == Some(q)
  {
    var where := if q.conds == [] then "" else " WHERE " + RenderConds(q.conds);
    assert RenderSelect(q) == "SELECT * FROM " + (q.table + where);
    StripPrefixOf("SELECT * FROM ", q.table + where);
    IdentifierOf(q.table, where);
    assert (q.table + where)[|q.table|..] == where;
    if q.conds != [] {
      StripPrefixOf(" WHERE ", RenderConds(q.conds));
      ParseCondsOf(q.conds);
    }
  }

  /** The columns of a row of the menu table that conditions look at. */
  datatype Probe = Probe(name: string, category: string)

  /** Whether a row satisfies the conditions once the parameters are bound left to
      right: `category IN (...)` takes the next n parameters, `name LIKE ?` one. */
  function Holds(cs: seq<Cond>, params: seq<string>, row: Probe): bool
    requires |params| == Arity(cs)
  {
    if cs == [] then true
    else
      var n := CondArity(cs[0]);
      (match cs[0]
       case CategoryIn(_) => row.category in params[..n]
       case NameLike => Like(row.name, params[0]))
      && Holds(cs[1..], params[n..], row)
  }

  /** SQLite's `s LIKE p`: `%` matches any run of characters, `_` any one
      character, and other characters match up to ASCII case. */
  function Like(s: string, p: string): bool
    decreases |s| + |p|
  {
    if p == [] then s == []
    else if p[0] == '%' then Like(s, p[1..]) || (s != [] && Like(s[1..], p))
    else s != [] && (p[0] == '_' || Fold(s[0]) == Fold(p[0])) && Like(s[1..], p[1..])
  }

  predicate NoWildcards(t: string) {
    '%' !in t && '_' !in t
  }

  /** `t` is a prefix of `s` up to ASCII case. */
  predicate PrefixIgnoringCase(t: string, s: string) {
    |t| <= |s| && forall i :: 0 <= i < |t| ==> Fold(t[i]) == Fold(s[i])
  }

  /** `t` occurs in `s` up to ASCII case. */
  predicate ContainsIgnoringCase(s: string, t: string) {
    exists k :: 0 <= k <= |s| && PrefixIgnoringCase(t, s[k..])
  }

  /** A pattern made only of `%` matches every string. */
  lemma {:induction false} LikePercent(s: string)
    ensures Like(s, "%")
  {
    assert "%"[1..] == [];
    if s != [] {
      LikePercent(s[1..]);
    }
  }

  /** `s LIKE t%` holds exactly when `t` is a prefix of `s` (t wildcard-free). */
  lemma {:induction false} LikePrefix(s: string, t: string)
    requires NoWildcards(t)
    ensures Like(s, t + "%") <==> PrefixIgnoringCase(t, s)
  {
    if t == [] {
      assert t + "%" == "%";
      LikePercent(s);
    } else {
      var p := t + "%";
      assert p[0] == t[0] && p[1..] == t[1..] + "%";
      assert t[0] in t;
      if s != [] {
        LikePrefix(s[1..], t[1..]);
        if PrefixIgnoringCase(t, s) {
          assert forall i :: 0 <= i < |t| - 1 ==> t[1..][i] == t[i + 1] && s[1..][i] == s[i + 1];
        }
        if Like(s, p) {
          assert PrefixIgnoringCase(t[1..], s[1..]);
          forall i | 0 <= i < |t| ensures Fold(t[i]) == Fold(s[i]) {
            if i > 0 { assert t[1..][i - 1] == t[i] && s[1..][i - 1] == s[i]; }
          }
        }
      }
    }
  }

  /** The key fact behind the menu search: `s LIKE %t%` holds exactly when `t`
      occurs in `s` ignoring ASCII case, for a search text without wildcards. */
  lemma {:induction false} LikeContains(s: string, t: string)
    requires NoWildcards(t)
    ensures Like(s, "%" + t + "%") <==> ContainsIgnoringCase(s, t)
  {
    var p := "%" + t + "%";
    assert p[0] == '%' && p[1..] == t + "%";
    LikePrefix(s, t);
    assert s[0..] == s;
    if s == [] {
      if ContainsIgnoringCase(s, t) {
        var k :| 0 <= k <= |s| && PrefixIgnoringCase(t, s[k..]);
        assert k == 0;
      }
    } else {
      LikeContains(s[1..], t);
      if ContainsIgnoringCase(s, t) && !PrefixIgnoringCase(t, s) {
        var k :| 0 <= k <= |s| && PrefixIgnoringCase(t, s[k..]);
        assert k > 0;
        assert s[1..][k - 1..] == s[k..];
      }
      if ContainsIgnoringCase(s[1..], t) {
        var k :| 0 <= k <= |s| - 1 && PrefixIgnoringCase(t, s[1..][k..]);
        assert s[1..][k..] == s[k + 1..];
      }
    }
  }

  /** `INSERT INTO table (c1, c2, ...) VALUES (?, ?, ...);` with its count of `?`. */
  datatype Insert = Insert(table: string, columns: seq<string>, placeholders: nat)

  /** What SQLite does when it prepares and binds an INSERT with `given` values:
      a VALUES row whose length differs from the column list is rejected at
      prepare time ("N values for M columns"); then every `?` must be bound. */
  function PrepareInsert(st: Insert, given: nat): (r: Settled<()>)
    ensures r.Resolved? <==> st.placeholders == |st.columns| && given == st.placeholders
  {
    if st.placeholders != |st.columns| then Rejected(ValuesColumnsMismatch(st.placeholders, |st.columns|))
    else if given != st.placeholders then Rejected(BindingMismatch(st.placeholders, given))
    else Resolved(())
  }

  /** How a promise returned by a store settles. */
  datatype Settled<+T> = Resolved(value: T) | Rejected(error: SqlError)
}
