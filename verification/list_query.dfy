/** The list handlers' dynamic WHERE clause (server.js, GET /api/grades and
    GET /api/grade-inputs): up to two optional query-string filters become SQL text
    with positional `$k` placeholders plus the list of values bound to them. */
module ListQuery {
  import opened Wrappers
  import opened Words
  import Decimal

  /** One optional filter: the column it constrains and the query-string value, if any. */
  datatype Filter = Filter(column: string, value: Option<string>)

  /** The SQL text handed to the driver and the values bound to `$1`, `$2`, ... */
  datatype Query = Query(text: string, params: seq<string>)

  /** JavaScript truthiness of a query-string value: present and not the empty string. */
  predicate Truthy(v: Option<string>) {
    v.Some? && v.value != ""
  }

  const OrderSuffix := " ORDER BY created_at DESC"

  /** One filter taken: push its value, then append ` col = $n` where n is the number of
      values pushed so far. */
  function Push(q: Query, column: string, value: string): (r: Query)
    ensures |r.text| > |q.text| && r.text[..|q.text|] == q.text
    ensures r.params == q.params + [value]
  {
    var params := q.params + [value];
    Query(q.text + " " + column + " = $" + Decimal.FromNat(|params|), params)
  }

  /** The handlers' builder, following the code's appends: ` WHERE` when some filter is
      truthy, each truthy filter in order, ` AND` before the second only when a value was
      already pushed, and the fixed ORDER BY suffix at the end. */
  function Build(table: string, first: Filter, second: Filter): (r: Query)
    ensures r.params == TruthyValues(first.value, second.value)
  {
    var q0 := Query("SELECT * FROM " + table, []);
    var q :=
      if Truthy(first.value) || Truthy(second.value) then
        var q1 := Query(q0.text + " WHERE", q0.params);
        var q2 := if Truthy(first.value) then Push(q1, first.column, first.value.value) else q1;
        if Truthy(second.value) then
          var q3 := if |q2.params| > 0 then Query(q2.text + " AND", q2.params) else q2;
          Push(q3, second.column, second.value.value)
        else q2
      else q0;
    Query(q.text + OrderSuffix, q.params)
  }

  // Reference definition: the query as a list of words

  /** The filters that count, in their given order. */
  function Present(fs: seq<Filter>): (ps: seq<Filter>)
    ensures |ps| <= |fs|
    ensures forall i :: 0 <= i < |ps| ==> Truthy(ps[i].value) && ps[i] in fs
    decreases |fs|
  {
    if |fs| == 0 then []
    else (if Truthy(fs[0].value) then [fs[0]] else []) + Present(fs[1..])
  }

  function Columns(fs: seq<Filter>): (cs: seq<string>)
    ensures |cs| == |fs|
  {
    seq(|fs|, i requires 0 <= i < |fs| => fs[i].column)
  }

  function Values(fs: seq<Filter>): (vs: seq<string>)
    requires forall i :: 0 <= i < |fs| ==> fs[i].value.Some?
    ensures |vs| == |fs|
  {
    seq(|fs|, i requires 0 <= i < |fs| => fs[i].value.value)
  }

  function Placeholder(k: nat): (w: string) {
    "$" + Decimal.FromNat(k)
  }

  /** `c0 = $k AND c1 = $(k+1) AND ...` as words. */
  function Conjunction(cols: seq<string>, k: nat): (ws: seq<string>)
    decreases |cols|
  {
    if |cols| == 0 then []
    else if |cols| == 1 then [cols[0], "=", Placeholder(k)]
    else [cols[0], "=", Placeholder(k), "AND"] + Conjunction(cols[1..], k + 1)
  }

  function Head(table: string): (ws: seq<string>) {
    ["SELECT", "*", "FROM", table]
  }

  function Tail(): (ws: seq<string>) {
    ["ORDER", "BY", "created_at", "DESC"]
  }

  function QueryWords(table: string, cols: seq<string>): (ws: seq<string>) {
    Head(table) + (if |cols| == 0 then [] else ["WHERE"] + Conjunction(cols, 1)) + Tail()
  }

  /** The query a list of filters should produce: one condition per truthy filter, in order,
      numbered from 1, and the truthy values as parameters. */
  function Reference(table: string, fs: seq<Filter>): (r: Query) {
    var ps := Present(fs);
    Query(Join(QueryWords(table, Columns(ps))), Values(ps))
  }

  // Reading the text back

  /** The number of a placeholder word `$<digits>`, or None for any other word. */
  function PlaceholderNumber(w: string): (k: Option<nat>) {
    if |w| >= 2 && w[0] == '$' && Decimal.AllDigits(w[1..]) then Some(Decimal.ToNat(w[1..]))
    else None
  }

  function NumberOf(w: string): (ks: seq<nat>) {
    match PlaceholderNumber(w)
    case Some(k) => [k]
    case None => []
  }

  /** The numbers of the placeholder words, in text order. */
  function Placeholders(ws: seq<string>): (ks: seq<nat>)
    decreases |ws|
  {
    if |ws| == 0 then []
    else NumberOf(ws[0]) + Placeholders(ws[1..])
  }

  /** A SQL identifier as the handlers write them: lower-case letters, digits and `_`. */
  predicate IsIdentifier(s: string) {
    && |s| > 0
    && forall i :: 0 <= i < |s| ==> ('a' <= s[i] <= 'z' || '0' <= s[i] <= '9' || s[i] == '_')
  }

  predicate ValidFilters(fs: seq<Filter>) {
    forall i :: 0 <= i < |fs| ==> IsIdentifier(fs[i].column)
  }

  // The builder agrees with the reference

  lemma JoinSnoc(ws: seq<string>, w: string)
    requires |ws| >= 1
    ensures Join(ws + [w]) == Join(ws) + " " + w
  {
    assert (ws + [w])[..|ws|] == ws;
  }

  lemma JoinSnoc3(ws: seq<string>, a: string, b: string, c: string)
    requires |ws| >= 1
    ensures Join(ws + [a] + [b] + [c]) == Join(ws) + " " + a + " " + b + " " + c
  {
    JoinSnoc(ws, a);
    JoinSnoc(ws + [a], b);
    JoinSnoc(ws + [a] + [b], c);
  }

  lemma StringAssoc(a: string, b: string, c: string, d: string, e: string, f: string)
    ensures a + (b + c + d + e) + f == a + b + c + d + (e + f)
  {
  }

  /** ` = $` is the three words' separators around `=`, then the placeholder sign. */
  lemma EqualsSign(a: string, k: nat)
    ensures a + " = $" + Decimal.FromNat(k) == a + " " + "=" + " " + Placeholder(k)
  {
    assert " = $" == " " + "=" + " " + "$";
    StringAssoc(a, " ", "=", " ", "$", Decimal.FromNat(k));
  }

  /** Pushing a filter onto a query whose text is `ws` adds the three words `col`, `=`, `$k`
      where k is the new number of parameters. */
  lemma PushWords(q: Query, ws: seq<string>, col: string, v: string)
    requires |ws| >= 1 && q.text == Join(ws)
    ensures Push(q, col, v).text == Join(ws + [col] + ["="] + [Placeholder(|q.params| + 1)])
    ensures Push(q, col, v).params == q.params + [v]
  {
    JoinSnoc3(ws, col, "=", Placeholder(|q.params| + 1));
    EqualsSign(Join(ws) + " " + col, |q.params| + 1);
  }

  lemma HeadText(table: string)
    ensures Join(Head(table)) == "SELECT * FROM " + table
  {
    var h := Head(table);
    assert h[..3][..2][..1] == ["SELECT"];
    assert Join(h[..3][..2]) == "SELECT *";
    assert Join(h[..3]) == "SELECT * FROM";
  }

  lemma TailJoin()
    ensures " " + Join(Tail()) == OrderSuffix
  {
    var t := Tail();
    assert t[..3][..2][..1] == ["ORDER"];
    assert Join(t[..3][..2]) == "ORDER BY";
    assert Join(t[..3]) == "ORDER BY created_at";
  }

  lemma TailText(ws: seq<string>)
    requires |ws| >= 1
    ensures Join(ws) + OrderSuffix == Join(ws + Tail())
  {
    TailJoin();
    JoinConcat(ws, Tail());
  }

  lemma PresentPair(first: Filter, second: Filter)
    ensures Present([first, second])
         == (if Truthy(first.value) then [first] else []) + (if Truthy(second.value) then [second] else [])
  {
    assert [first, second][1..] == [second];
    assert [second][1..] == [];
  }

  /** The text of a query whose conditions are `conds`, in the word form. */
  function WithConditions(table: string, conds: seq<string>): (ws: seq<string>) {
    Head(table) + conds + Tail()
  }

  lemma BuildBoth(table: string, first: Filter, second: Filter)
    requires Truthy(first.value) && Truthy(second.value)
    ensures Build(table, first, second).text
         == Join(WithConditions(table, ["WHERE", first.column, "=", Placeholder(1),
                                        "AND", second.column, "=", Placeholder(2)]))
    ensures Build(table, first, second).params == [first.value.value, second.value.value]
  {
    var head := Head(table);
    HeadText(table);
    var w1 := head + ["WHERE"];
    var q1 := Query("SELECT * FROM " + table + " WHERE", []);
    JoinSnoc(head, "WHERE");
    var w2 := w1 + [first.column] + ["="] + [Placeholder(1)];
    var q2 := Push(q1, first.column, first.value.value);
    PushWords(q1, w1, first.column, first.value.value);
    var w3 := w2 + ["AND"];
    var q3 := Query(q2.text + " AND", q2.params);
    JoinSnoc(w2, "AND");
    var w4 := w3 + [second.column] + ["="] + [Placeholder(2)];
    var q4 := Push(q3, second.column, second.value.value);
    PushWords(q3, w3, second.column, second.value.value);
    TailText(w4);
    BuildBothUnfold(table, first, second);
    TwoConditionWords(head, first.column, Placeholder(1), second.column, Placeholder(2));
  }

  /** With both filters truthy the builder is ` WHERE`, one push, ` AND`, another push. */
  lemma BuildBothUnfold(table: string, first: Filter, second: Filter)
    requires Truthy(first.value) && Truthy(second.value)
    ensures var q2 := Push(Query("SELECT * FROM " + table + " WHERE", []), first.column, first.value.value);
            var q4 := Push(Query(q2.text + " AND", q2.params), second.column, second.value.value);
            Build(table, first, second) == Query(q4.text + OrderSuffix, q4.params)
  {
  }

  /** With one filter truthy the builder is ` WHERE` and a single push. */
  lemma BuildOneUnfold(table: string, first: Filter, second: Filter, f: Filter)
    requires Truthy(first.value) != Truthy(second.value)
    requires f == if Truthy(first.value) then first else second
    ensures var q2 := Push(Query("SELECT * FROM " + table + " WHERE", []), f.column, f.value.value);
            Build(table, first, second) == Query(q2.text + OrderSuffix, q2.params)
  {
  }

  lemma TwoConditionWords(head: seq<string>, c1: string, p1: string, c2: string, p2: string)
    ensures head + ["WHERE"] + [c1] + ["="] + [p1] + ["AND"] + [c2] + ["="] + [p2] + Tail()
         == head + ["WHERE", c1, "=", p1, "AND", c2, "=", p2] + Tail()
  {
  }

  lemma OneConditionWords(head: seq<string>, c: string, p: string)
    ensures head + ["WHERE"] + [c] + ["="] + [p] + Tail() == head + ["WHERE", c, "=", p] + Tail()
  {
  }

  lemma BuildOne(table: string, first: Filter, second: Filter, f: Filter)
    requires Truthy(first.value) != Truthy(second.value)
    requires f == if Truthy(first.value) then first else second
    ensures Build(table, first, second).text
         == Join(WithConditions(table, ["WHERE", f.column, "=", Placeholder(1)]))
    ensures Build(table, first, second).params == [f.value.value]
  {
    var head := Head(table);
    HeadText(table);
    var w1 := head + ["WHERE"];
    var q1 := Query("SELECT * FROM " + table + " WHERE", []);
    JoinSnoc(head, "WHERE");
    var w2 := w1 + [f.column] + ["="] + [Placeholder(1)];
    var q2 := Push(q1, f.column, f.value.value);
    PushWords(q1, w1, f.column, f.value.value);
    TailText(w2);
    BuildOneUnfold(table, first, second, f);
    OneConditionWords(head, f.column, Placeholder(1));
  }

  lemma BuildNone(table: string, first: Filter, second: Filter)
    requires !Truthy(first.value) && !Truthy(second.value)
    ensures Build(table, first, second) == Query(Join(WithConditions(table, [])), [])
  {
    HeadText(table);
    TailText(Head(table));
    assert WithConditions(table, []) == Head(table) + Tail();
  }

  lemma ReferenceBoth(table: string, first: Filter, second: Filter)
    requires Truthy(first.value) && Truthy(second.value)
    ensures Reference(table, [first, second])
         == Query(Join(WithConditions(table, ["WHERE", first.column, "=", Placeholder(1),
                                              "AND", second.column, "=", Placeholder(2)])),
                  [first.value.value, second.value.value])
  {
    var ps := Present([first, second]);
    PresentPair(first, second);
    assert ps == [first, second];
    var cols := Columns(ps);
    assert cols == [first.column, second.column];
    assert cols[1..] == [second.column];
    assert Conjunction(cols, 1) == [first.column, "=", Placeholder(1), "AND"] + Conjunction([second.column], 2);
    assert QueryWords(table, cols) == WithConditions(table, ["WHERE", first.column, "=", Placeholder(1),
                                                             "AND", second.column, "=", Placeholder(2)]);
    assert Values(ps) == [first.value.value, second.value.value];
  }

  lemma ReferenceOne(table: string, first: Filter, second: Filter, f: Filter)
    requires Truthy(first.value) != Truthy(second.value)
    requires f == if Truthy(first.value) then first else second
    ensures Reference(table, [first, second])
         == Query(Join(WithConditions(table, ["WHERE", f.column, "=", Placeholder(1)])), [f.value.value])
  {
    var ps := Present([first, second]);
    PresentPair(first, second);
    assert ps == [f];
    assert Columns(ps) == [f.column];
    assert QueryWords(table, Columns(ps)) == WithConditions(table, ["WHERE", f.column, "=", Placeholder(1)]);
    assert Values(ps) == [f.value.value];
  }

  lemma ReferenceNone(table: string, first: Filter, second: Filter)
    requires !Truthy(first.value) && !Truthy(second.value)
    ensures Reference(table, [first, second]) == Query(Join(WithConditions(table, [])), [])
  {
    PresentPair(first, second);
    assert Present([first, second]) == [];
  }

  /** The handlers' step-by-step builder produces exactly the reference query for its two
      filters, whatever the filter values are. */
  lemma BuildIsReference(table: string, first: Filter, second: Filter)
    ensures Build(table, first, second) == Reference(table, [first, second])
  {
    var t1, t2 := Truthy(first.value), Truthy(second.value);
    if t1 && t2 {
      BuildBoth(table, first, second);
      ReferenceBoth(table, first, second);
    } else if t1 || t2 {
      var f := if t1 then first else second;
      BuildOne(table, first, second, f);
      ReferenceOne(table, first, second, f);
    } else {
      BuildNone(table, first, second);
      ReferenceNone(table, first, second);
    }
  }

  // Shape of the reference query

  lemma PlaceholderRoundTrip(k: nat)
    ensures PlaceholderNumber(Placeholder(k)) == Some(k)
    ensures IsWord(Placeholder(k))
  {
    var p := Placeholder(k);
    assert p[1..] == Decimal.FromNat(k);
    Decimal.ToNatFromNat(k);
    assert p[0] == '$';
    forall i | 0 <= i < |p|
      ensures p[i] != ' '
    {
      if i > 0 {
        assert p[i] == p[1..][i - 1];
      }
    }
  }

  /** An identifier is a single word, not a keyword the builder emits, and not a placeholder. */
  lemma IdentifierIsPlain(s: string)
    requires IsIdentifier(s)
    ensures IsWord(s)
    ensures PlaceholderNumber(s) == None
    ensures s != "WHERE" && s != "AND" && s != "="
  {
    assert s[0] != '$';
    assert s[0] != "WHERE"[0] && s[0] != "AND"[0] && s[0] != "="[0];
    forall i | 0 <= i < |s|
      ensures s[i] != ' '
    {
    }
  }

  lemma {:induction false} PlaceholdersConcat(a: seq<string>, b: seq<string>)
    ensures Placeholders(a + b) == Placeholders(a) + Placeholders(b)
    decreases |a|
  {
    if |a| > 0 {
      assert (a + b)[1..] == a[1..] + b;
      assert (a + b)[0] == a[0];
      PlaceholdersConcat(a[1..], b);
    } else {
      assert a + b == b;
    }
  }

  lemma PlaceholdersPlain(ws: seq<string>)
    requires forall i :: 0 <= i < |ws| ==> PlaceholderNumber(ws[i]).None?
    ensures Placeholders(ws) == []
    decreases |ws|
  {
    if |ws| > 0 {
      PlaceholdersPlain(ws[1..]);
    }
  }

  lemma {:induction false} ConjunctionLength(cols: seq<string>, k: nat)
    ensures |Conjunction(cols, k)| == (if |cols| == 0 then 0 else 4 * |cols| - 1)
    decreases |cols|
  {
    if |cols| > 1 {
      ConjunctionLength(cols[1..], k + 1);
    }
  }

  /** The i-th condition of `cols` numbered from k sits at word 4i: the i-th column, `=`,
      `$(k+i)`, followed by `AND` unless it is the last. */
  lemma {:induction false} ConjunctionAt(cols: seq<string>, k: nat, i: nat)
    requires i < |cols|
    ensures |Conjunction(cols, k)| == 4 * |cols| - 1
    ensures Conjunction(cols, k)[4 * i] == cols[i]
    ensures Conjunction(cols, k)[4 * i + 1] == "="
    ensures Conjunction(cols, k)[4 * i + 2] == Placeholder(k + i)
    ensures i < |cols| - 1 ==> Conjunction(cols, k)[4 * i + 3] == "AND"
    decreases i
  {
    ConjunctionLength(cols, k);
    if i > 0 {
      var rest := Conjunction(cols[1..], k + 1);
      ConjunctionAt(cols[1..], k + 1, i - 1);
      assert Conjunction(cols, k) == [cols[0], "=", Placeholder(k), "AND"] + rest;
    }
  }

  /** Over identifier columns every condition word is a single word. */
  lemma {:induction false} ConjunctionAllWords(cols: seq<string>, k: nat)
    requires forall i :: 0 <= i < |cols| ==> IsIdentifier(cols[i])
    ensures AllWords(Conjunction(cols, k))
    decreases |cols|
  {
    if |cols| > 0 {
      IdentifierIsPlain(cols[0]);
      PlaceholderRoundTrip(k);
      if |cols| > 1 {
        ConjunctionAllWords(cols[1..], k + 1);
      }
    }
  }

  /** Over identifier columns `AND` occurs exactly between consecutive conditions and
      `WHERE` not at all. */
  lemma {:induction false} ConjunctionKeywords(cols: seq<string>, k: nat)
    requires forall i :: 0 <= i < |cols| ==> IsIdentifier(cols[i])
    ensures Count(Conjunction(cols, k), "AND") == (if |cols| == 0 then 0 else |cols| - 1)
    ensures Count(Conjunction(cols, k), "WHERE") == 0
    decreases |cols|
  {
    if |cols| > 0 {
      IdentifierIsPlain(cols[0]);
      assert Placeholder(k) != "AND" && Placeholder(k) != "WHERE" by {
        assert Placeholder(k)[0] == '$';
      }
      var first := [cols[0], "=", Placeholder(k)];
      CountAbsent(first, "AND");
      CountAbsent(first, "WHERE");
      if |cols| > 1 {
        var rest := Conjunction(cols[1..], k + 1);
        ConjunctionKeywords(cols[1..], k + 1);
        assert Conjunction(cols, k) == first + (["AND"] + rest);
        CountConcat(first, ["AND"] + rest, "AND");
        CountConcat(first, ["AND"] + rest, "WHERE");
        CountConcat(["AND"], rest, "AND");
        CountConcat(["AND"], rest, "WHERE");
      } else {
        assert Conjunction(cols, k) == first;
      }
    }
  }

  lemma FirstCondition(col: string, k: nat)
    requires IsIdentifier(col)
    ensures Placeholders([col, "=", Placeholder(k)]) == [k]
  {
    var first := [col, "=", Placeholder(k)];
    IdentifierIsPlain(col);
    PlaceholderRoundTrip(k);
    assert NumberOf(col) == [] && NumberOf("=") == [] && NumberOf(Placeholder(k)) == [k];
    assert first[1..][1..] == [Placeholder(k)];
    assert first[1..][1..][1..] == [];
    assert Placeholders([Placeholder(k)]) == [k];
    assert Placeholders(first[1..]) == [k];
  }

  /** k, k+1, ..., k+n is k followed by k+1, ..., k+n. */
  lemma CountingFrom(n: nat, k: nat)
    ensures seq(n + 1, i => k + i) == [k] + seq(n, i => k + 1 + i)
  {
  }

  /** Over identifier columns the placeholders read k, k+1, ... in text order. */
  lemma {:induction false} ConjunctionPlaceholders(cols: seq<string>, k: nat)
    requires forall i :: 0 <= i < |cols| ==> IsIdentifier(cols[i])
    ensures Placeholders(Conjunction(cols, k)) == seq(|cols|, i => k + i)
    decreases |cols|
  {
    if |cols| == 1 {
      FirstCondition(cols[0], k);
      CountingFrom(0, k);
    } else if |cols| > 1 {
      ConjunctionSplit(cols, k);
      ConjunctionPlaceholders(cols[1..], k + 1);
      ConditionThenRest(cols[0], k, Conjunction(cols[1..], k + 1), |cols| - 1);
    }
  }

  /** One condition numbered k, then `AND` and conditions numbered k+1, ..., k+n. */
  lemma ConditionThenRest(col: string, k: nat, rest: seq<string>, n: nat)
    requires IsIdentifier(col)
    requires Placeholders(rest) == seq(n, i => k + 1 + i)
    ensures Placeholders([col, "=", Placeholder(k)] + (["AND"] + rest)) == seq(n + 1, i => k + i)
  {
    var first := [col, "=", Placeholder(k)];
    FirstCondition(col, k);
    PlaceholdersConcat(first, ["AND"] + rest);
    PlaceholdersAnd(rest);
    CountingFrom(n, k);
  }

  lemma ConjunctionSplit(cols: seq<string>, k: nat)
    requires |cols| > 1
    ensures Conjunction(cols, k) == [cols[0], "=", Placeholder(k)] + (["AND"] + Conjunction(cols[1..], k + 1))
  {
  }

  lemma PlaceholdersAnd(rest: seq<string>)
    ensures Placeholders(["AND"] + rest) == Placeholders(rest)
  {
    assert (["AND"] + rest)[1..] == rest;
  }

  /** The fixed words around the conditions are single words, ... */
  lemma FrameAllWords(table: string)
    requires IsIdentifier(table)
    ensures AllWords(Head(table)) && AllWords(Tail())
  {
    IdentifierIsPlain(table);
  }

  /** ... are neither `WHERE` nor `AND`, ... */
  lemma FrameKeywords(table: string)
    requires IsIdentifier(table)
    ensures Count(Head(table), "WHERE") == 0 && Count(Tail(), "WHERE") == 0
    ensures Count(Head(table), "AND") == 0 && Count(Tail(), "AND") == 0
  {
    IdentifierIsPlain(table);
    CountAbsent(Head(table), "WHERE");
    CountAbsent(Tail(), "WHERE");
    CountAbsent(Head(table), "AND");
    CountAbsent(Tail(), "AND");
  }

  /** ... and are not placeholders. */
  lemma FramePlaceholders(table: string)
    requires IsIdentifier(table)
    ensures Placeholders(Head(table)) == [] && Placeholders(Tail()) == []
  {
    IdentifierIsPlain(table);
    PlaceholdersPlain(Head(table));
    PlaceholdersPlain(Tail());
  }

  /** Word counts of the query for conditions on `cols`: `WHERE` once when there is a
      condition, `AND` one time fewer than there are conditions. */
  lemma QueryWordsKeywords(table: string, cols: seq<string>)
    requires IsIdentifier(table)
    requires forall i :: 0 <= i < |cols| ==> IsIdentifier(cols[i])
    ensures Count(QueryWords(table, cols), "WHERE") == if |cols| > 0 then 1 else 0
    ensures Count(QueryWords(table, cols), "AND") == if |cols| > 0 then |cols| - 1 else 0
  {
    var ws := QueryWords(table, cols);
    FrameKeywords(table);
    var mid := if |cols| == 0 then [] else ["WHERE"] + Conjunction(cols, 1);
    assert ws == Head(table) + (mid + Tail());
    CountConcat(Head(table), mid + Tail(), "WHERE");
    CountConcat(Head(table), mid + Tail(), "AND");
    CountConcat(mid, Tail(), "WHERE");
    CountConcat(mid, Tail(), "AND");
    if |cols| > 0 {
      ConjunctionKeywords(cols, 1);
      CountConcat(["WHERE"], Conjunction(cols, 1), "WHERE");
      CountConcat(["WHERE"], Conjunction(cols, 1), "AND");
    }
  }

  /** The placeholders of the query for conditions on `cols` read `$1..$n`, n = |cols|. */
  lemma QueryWordsPlaceholders(table: string, cols: seq<string>)
    requires IsIdentifier(table)
    requires forall i :: 0 <= i < |cols| ==> IsIdentifier(cols[i])
    ensures Placeholders(QueryWords(table, cols)) == seq(|cols|, i => i + 1)
  {
    var ws := QueryWords(table, cols);
    FramePlaceholders(table);
    var mid := if |cols| == 0 then [] else ["WHERE"] + Conjunction(cols, 1);
    assert ws == Head(table) + (mid + Tail());
    PlaceholdersConcat(Head(table), mid + Tail());
    PlaceholdersConcat(mid, Tail());
    if |cols| > 0 {
      ConjunctionPlaceholders(cols, 1);
      PlaceholdersConcat(["WHERE"], Conjunction(cols, 1));
      assert Placeholders(["WHERE"]) == [];
    } else {
      assert Placeholders(mid) == [];
    }
  }

  /** Condition i of the query for `cols` sits at words 5+4i .. 7+4i. */
  lemma QueryWordsAt(table: string, cols: seq<string>, i: nat)
    requires i < |cols|
    ensures |QueryWords(table, cols)| == 8 + 4 * |cols|
    ensures QueryWords(table, cols)[5 + 4 * i] == cols[i]
    ensures QueryWords(table, cols)[6 + 4 * i] == "="
    ensures PlaceholderNumber(QueryWords(table, cols)[7 + 4 * i]) == Some(i + 1)
  {
    ConjunctionAt(cols, 1, i);
    PlaceholderRoundTrip(1 + i);
    assert QueryWords(table, cols) == Head(table) + ["WHERE"] + Conjunction(cols, 1) + Tail();
  }

  /** The words of the reference query, read back from its text. */
  lemma ReferenceWords(table: string, fs: seq<Filter>)
    requires IsIdentifier(table) && ValidFilters(fs)
    ensures Split(Reference(table, fs).text) == QueryWords(table, Columns(Present(fs)))
    ensures |Split(Reference(table, fs).text)| == 8 + 4 * |Present(fs)|
    ensures |Reference(table, fs).params| == |Present(fs)|
  {
    var cols := Columns(Present(fs));
    FrameAllWords(table);
    ConjunctionLength(cols, 1);
    if |cols| > 0 {
      ConjunctionAllWords(cols, 1);
    }
    SplitJoin(QueryWords(table, cols));
  }

  /** `WHERE` once when some filter is truthy and never otherwise; `AND` one time fewer than
      there are conditions. */
  lemma ReferenceKeywords(table: string, fs: seq<Filter>)
    requires IsIdentifier(table) && ValidFilters(fs)
    ensures Count(Split(Reference(table, fs).text), "WHERE") == if |Present(fs)| > 0 then 1 else 0
    ensures Count(Split(Reference(table, fs).text), "AND")
         == if |Present(fs)| > 0 then |Present(fs)| - 1 else 0
  {
    ReferenceWords(table, fs);
    QueryWordsKeywords(table, Columns(Present(fs)));
  }

  /** The placeholders read `$1..$n` in text order, n the number of parameters. */
  lemma ReferencePlaceholders(table: string, fs: seq<Filter>)
    requires IsIdentifier(table) && ValidFilters(fs)
    ensures Placeholders(Split(Reference(table, fs).text)) == seq(|Reference(table, fs).params|, i => i + 1)
  {
    ReferenceWords(table, fs);
    QueryWordsPlaceholders(table, Columns(Present(fs)));
  }

  /** The i-th condition compares the i-th truthy filter's column with placeholder `$(i+1)`,
      and parameter i is that filter's value. */
  lemma ReferenceBindings(table: string, fs: seq<Filter>)
    requires IsIdentifier(table) && ValidFilters(fs)
    ensures |Split(Reference(table, fs).text)| == 8 + 4 * |Present(fs)|
    ensures forall i :: 0 <= i < |Present(fs)| ==>
              && Split(Reference(table, fs).text)[5 + 4 * i] == Present(fs)[i].column
              && Split(Reference(table, fs).text)[6 + 4 * i] == "="
              && PlaceholderNumber(Split(Reference(table, fs).text)[7 + 4 * i]) == Some(i + 1)
              && Reference(table, fs).params[i] == Present(fs)[i].value.value
  {
    var ps := Present(fs);
    ReferenceWords(table, fs);
    forall i | 0 <= i < |ps|
      ensures Split(Reference(table, fs).text)[5 + 4 * i] == ps[i].column
      ensures Split(Reference(table, fs).text)[6 + 4 * i] == "="
      ensures PlaceholderNumber(Split(Reference(table, fs).text)[7 + 4 * i]) == Some(i + 1)
    {
      QueryWordsAt(table, Columns(ps), i);
    }
  }

  /** The combined shape of the reference query (see the four lemmas above). */
  lemma ReferenceShape(table: string, fs: seq<Filter>)
    requires IsIdentifier(table) && ValidFilters(fs)
    ensures |Reference(table, fs).params| == |Present(fs)|
    ensures Count(Split(Reference(table, fs).text), "WHERE") == if |Present(fs)| > 0 then 1 else 0
    ensures Count(Split(Reference(table, fs).text), "AND")
         == if |Present(fs)| > 0 then |Present(fs)| - 1 else 0
    ensures Placeholders(Split(Reference(table, fs).text)) == seq(|Present(fs)|, i => i + 1)
    ensures |Split(Reference(table, fs).text)| == 8 + 4 * |Present(fs)|
    ensures forall i :: 0 <= i < |Present(fs)| ==>
              && Split(Reference(table, fs).text)[5 + 4 * i] == Present(fs)[i].column
              && Split(Reference(table, fs).text)[6 + 4 * i] == "="
              && PlaceholderNumber(Split(Reference(table, fs).text)[7 + 4 * i]) == Some(i + 1)
              && Reference(table, fs).params[i] == Present(fs)[i].value.value
  {
    ReferenceWords(table, fs);
    ReferenceKeywords(table, fs);
    ReferencePlaceholders(table, fs);
    ReferenceBindings(table, fs);
  }

  /** The query text depends only on which filters are truthy, never on their values. */
  lemma BuildDependsOnlyOnPresence(table: string, first: Filter, second: Filter,
                                   first': Filter, second': Filter)
    requires first.column == first'.column && second.column == second'.column
    requires Truthy(first.value) == Truthy(first'.value)
    requires Truthy(second.value) == Truthy(second'.value)
    ensures Build(table, first, second).text == Build(table, first', second').text
  {
    BuildIsReference(table, first, second);
    BuildIsReference(table, first', second');
    PresentPair(first, second);
    PresentPair(first', second');
    assert Columns(Present([first, second])) == Columns(Present([first', second']));
  }

  // The two list endpoints

  const GradesTable := "tbl_grades_subject_grade"
  const GradeInputsTable := "tbl_grade_grade_input"

  /** GET /api/grades: optional `student_id`, then `course_subject_id`. */
  function GradesList(studentId: Option<string>, courseSubjectId: Option<string>): (r: Query)
    ensures r.params == TruthyValues(studentId, courseSubjectId)
  {
    Build(GradesTable, Filter("student_id", studentId), Filter("course_subject_id", courseSubjectId))
  }

  /** GET /api/grade-inputs: optional `subject_grade_id`, then `term`. */
  function GradeInputsList(subjectGradeId: Option<string>, term: Option<string>): (r: Query)
    ensures r.params == TruthyValues(subjectGradeId, term)
  {
    Build(GradeInputsTable, Filter("subject_grade_id", subjectGradeId), Filter("term", term))
  }

  lemma GradesNamesAreIdentifiers()
    ensures IsIdentifier(GradesTable) && IsIdentifier("student_id") && IsIdentifier("course_subject_id")
  {
  }

  lemma GradeInputsNamesAreIdentifiers()
    ensures IsIdentifier(GradeInputsTable) && IsIdentifier("subject_grade_id") && IsIdentifier("term")
  {
  }

  /** The values of the truthy ones among two optional filters, first before second. */
  function TruthyValues(first: Option<string>, second: Option<string>): (vs: seq<string>) {
    (if Truthy(first) then [first.value] else []) + (if Truthy(second) then [second.value] else [])
  }

  /** Shape of a two-filter query: parameters are the truthy values in order; read as words,
      `WHERE` occurs once iff a filter is truthy, `AND` once iff both are, the placeholders are
      `$1..$n` with n the number of parameters, and the condition before placeholder `$(i+1)`
      names the column whose value is parameter i. */
  lemma BuildShape(table: string, first: Filter, second: Filter)
    requires IsIdentifier(table) && IsIdentifier(first.column) && IsIdentifier(second.column)
    ensures Build(table, first, second).params == TruthyValues(first.value, second.value)
    ensures Count(Split(Build(table, first, second).text), "WHERE")
         == if Truthy(first.value) || Truthy(second.value) then 1 else 0
    ensures Count(Split(Build(table, first, second).text), "AND")
         == if Truthy(first.value) && Truthy(second.value) then 1 else 0
    ensures Placeholders(Split(Build(table, first, second).text))
         == seq(|Build(table, first, second).params|, i => i + 1)
    ensures |Split(Build(table, first, second).text)| == 8 + 4 * |Build(table, first, second).params|
    ensures forall i :: 0 <= i < |Build(table, first, second).params| ==>
              && Split(Build(table, first, second).text)[5 + 4 * i]
                 == (if i == 0 && Truthy(first.value) then first.column else second.column)
              && Split(Build(table, first, second).text)[6 + 4 * i] == "="
              && PlaceholderNumber(Split(Build(table, first, second).text)[7 + 4 * i]) == Some(i + 1)
  {
    var fs := [first, second];
    BuildIsReference(table, first, second);
    PresentPairFacts(first, second);
    assert ValidFilters(fs);
    ReferenceShape(table, fs);
  }

  lemma PresentPairFacts(first: Filter, second: Filter)
    ensures Values(Present([first, second])) == TruthyValues(first.value, second.value)
    ensures forall i :: 0 <= i < |Present([first, second])| ==>
              Present([first, second])[i].column
              == (if i == 0 && Truthy(first.value) then first.column else second.column)
  {
    PresentPair(first, second);
  }

  lemma BuildUnfiltered(table: string, first: Filter, second: Filter)
    requires !Truthy(first.value) && !Truthy(second.value)
    ensures Build(table, first, second) == Query("SELECT * FROM " + table + OrderSuffix, [])
  {
  }

  /** With neither filter truthy the grades query is the bare SELECT with the ORDER BY
      suffix and binds nothing. */
  lemma GradesListUnfiltered(studentId: Option<string>, courseSubjectId: Option<string>)
    requires !Truthy(studentId) && !Truthy(courseSubjectId)
    ensures GradesList(studentId, courseSubjectId)
         == Query("SELECT * FROM " + GradesTable + OrderSuffix, [])
  {
    BuildUnfiltered(GradesTable, Filter("student_id", studentId), Filter("course_subject_id", courseSubjectId));
  }

  /** With neither filter truthy the grade-inputs query is the bare SELECT with the ORDER BY
      suffix and binds nothing. */
  lemma GradeInputsListUnfiltered(subjectGradeId: Option<string>, term: Option<string>)
    requires !Truthy(subjectGradeId) && !Truthy(term)
    ensures GradeInputsList(subjectGradeId, term)
         == Query("SELECT * FROM " + GradeInputsTable + OrderSuffix, [])
  {
    BuildUnfiltered(GradeInputsTable, Filter("subject_grade_id", subjectGradeId), Filter("term", term));
  }

  /** Grades list query: `student_id` before `course_subject_id`, contiguous placeholders
      bound to the truthy values, `WHERE` iff a filter is truthy, `AND` iff both are. */
  lemma GradesListShape(studentId: Option<string>, courseSubjectId: Option<string>)
    ensures GradesList(studentId, courseSubjectId).params == TruthyValues(studentId, courseSubjectId)
    ensures Count(Split(GradesList(studentId, courseSubjectId).text), "WHERE")
         == if Truthy(studentId) || Truthy(courseSubjectId) then 1 else 0
    ensures Count(Split(GradesList(studentId, courseSubjectId).text), "AND")
         == if Truthy(studentId) && Truthy(courseSubjectId) then 1 else 0
    ensures Placeholders(Split(GradesList(studentId, courseSubjectId).text))
         == seq(|GradesList(studentId, courseSubjectId).params|, i => i + 1)
    ensures |Split(GradesList(studentId, courseSubjectId).text)|
         == 8 + 4 * |GradesList(studentId, courseSubjectId).params|
    ensures forall i :: 0 <= i < |GradesList(studentId, courseSubjectId).params| ==>
              && Split(GradesList(studentId, courseSubjectId).text)[5 + 4 * i]
                 == (if i == 0 && Truthy(studentId) then "student_id" else "course_subject_id")
              && Split(GradesList(studentId, courseSubjectId).text)[6 + 4 * i] == "="
              && PlaceholderNumber(Split(GradesList(studentId, courseSubjectId).text)[7 + 4 * i])
                 == Some(i + 1)
  {
    GradesNamesAreIdentifiers();
    BuildShape(GradesTable, Filter("student_id", studentId), Filter("course_subject_id", courseSubjectId));
  }

  /** Grade-inputs list query: `subject_grade_id` before `term`, contiguous placeholders
      bound to the truthy values, `WHERE` iff a filter is truthy, `AND` iff both are. */
  lemma GradeInputsListShape(subjectGradeId: Option<string>, term: Option<string>)
    ensures GradeInputsList(subjectGradeId, term).params == TruthyValues(subjectGradeId, term)
    ensures Count(Split(GradeInputsList(subjectGradeId, term).text), "WHERE")
         == if Truthy(subjectGradeId) || Truthy(term) then 1 else 0
    ensures Count(Split(GradeInputsList(subjectGradeId, term).text), "AND")
         == if Truthy(subjectGradeId) && Truthy(term) then 1 else 0
    ensures Placeholders(Split(GradeInputsList(subjectGradeId, term).text))
         == seq(|GradeInputsList(subjectGradeId, term).params|, i => i + 1)
    ensures |Split(GradeInputsList(subjectGradeId, term).text)|
         == 8 + 4 * |GradeInputsList(subjectGradeId, term).params|
    ensures forall i :: 0 <= i < |GradeInputsList(subjectGradeId, term).params| ==>
              && Split(GradeInputsList(subjectGradeId, term).text)[5 + 4 * i]
                 == (if i == 0 && Truthy(subjectGradeId) then "subject_grade_id" else "term")
              && Split(GradeInputsList(subjectGradeId, term).text)[6 + 4 * i] == "="
              && PlaceholderNumber(Split(GradeInputsList(subjectGradeId, term).text)[7 + 4 * i])
                 == Some(i + 1)
  {
    GradeInputsNamesAreIdentifiers();
    BuildShape(GradeInputsTable, Filter("subject_grade_id", subjectGradeId), Filter("term", term));
  }

  /** An empty-string filter is falsy: it is treated exactly as an absent one. */
  lemma GradesListEmptyIsAbsent(studentId: Option<string>, courseSubjectId: Option<string>)
    ensures GradesList(Some(""), courseSubjectId) == GradesList(None, courseSubjectId)
    ensures GradesList(studentId, Some("")) == GradesList(studentId, None)
  {
  }

  /** The same for the grade-inputs query: an empty `subject_grade_id` or `term` is ignored. */
  lemma GradeInputsListEmptyIsAbsent(subjectGradeId: Option<string>, term: Option<string>)
    ensures GradeInputsList(Some(""), term) == GradeInputsList(None, term)
    ensures GradeInputsList(subjectGradeId, Some("")) == GradeInputsList(subjectGradeId, None)
  {
  }

  /** The grades query text depends only on which filters are truthy; the values reach the
      query only as parameters. */
  lemma GradesListTextIgnoresValues(s: Option<string>, c: Option<string>,
                                    s': Option<string>, c': Option<string>)
    requires Truthy(s) == Truthy(s') && Truthy(c) == Truthy(c')
    ensures GradesList(s, c).text == GradesList(s', c').text
  {
    BuildDependsOnlyOnPresence(GradesTable, Filter("student_id", s), Filter("course_subject_id", c),
                               Filter("student_id", s'), Filter("course_subject_id", c'));
  }

  /** The grade-inputs query text depends only on which filters are truthy. */
  lemma GradeInputsListTextIgnoresValues(g: Option<string>, t: Option<string>,
                                         g': Option<string>, t': Option<string>)
    requires Truthy(g) == Truthy(g') && Truthy(t) == Truthy(t')
    ensures GradeInputsList(g, t).text == GradeInputsList(g', t').text
  {
    BuildDependsOnlyOnPresence(GradeInputsTable, Filter("subject_grade_id", g), Filter("term", t),
                               Filter("subject_grade_id", g'), Filter("term", t'));
  }
}
