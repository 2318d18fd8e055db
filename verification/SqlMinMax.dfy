/** Scalar MAX and MIN of two or more arguments become GREATEST and LEAST. */
module SqlMinMax {
  import opened Options
  import opened SqlText
  import opened SqlGrammar

  predicate IsMax(s: string) {
    |s| == 3 && (s[0] == 'M' || s[0] == 'm') && (s[1] == 'A' || s[1] == 'a') && (s[2] == 'X' || s[2] == 'x')
  }

  predicate IsMin(s: string) {
    |s| == 3 && (s[0] == 'M' || s[0] == 'm') && (s[1] == 'I' || s[1] == 'i') && (s[2] == 'N' || s[2] == 'n')
  }

  function Spaces(s: string): (n: nat)
    ensures n <= |s|
  {
    if s != "" && IsSpace(s[0]) then 1 + Spaces(s[1..]) else 0
  }

  // \s*\( matches at the head.
  predicate Opens(s: string) {
    Spaces(s) < |s| && s[Spaces(s)] == '('
  }

  // \b(MAX|MIN)\s*\( matches at the head; `edge` says that no word character stands before it.
  predicate MatchHead(edge: bool, s: string) {
    edge && |s| >= 3 && (IsMax(s[..3]) || IsMin(s[..3])) && Opens(s[3..])
  }

  // The text from the opening parenthesis of a match.
  function FromOpen(s: string): (r: string)
    requires MatchHead(true, s)
    ensures r != "" && r[0] == '('
  {
    s[3..][Spaces(s[3..])..]
  }

  // Walks to the parenthesis that closes the call: whether a comma stands at its own depth.
  function Scan(s: string, depth: int, quote: Option<char>, comma: bool): Option<bool>
    decreases |s|
  {
    if s == "" then None
    else
      match quote
      case Some(q) =>
        if s[0] == q && Second(s, q) then Scan(s[2..], depth, quote, comma)
        else Scan(s[1..], depth, if s[0] == q then None else quote, comma)
      case None =>
        if IsQuote(s[0]) then Scan(s[1..], depth, Some(s[0]), comma)
        else if s[0] == '(' then Scan(s[1..], depth + 1, None, comma)
        else if s[0] == ')' then
          (if depth - 1 == 0 then Some(comma) else Scan(s[1..], depth - 1, None, comma))
        else Scan(s[1..], depth, None, comma || (s[0] == ',' && depth == 1))
  }

  predicate ScalarHead(edge: bool, s: string) {
    MatchHead(edge, s) && Scan(FromOpen(s), 0, None, false) == Some(true)
  }

  function NewName(name: string): string {
    if IsMax(name) then "GREATEST" else "LEAST"
  }

  function Replaced(s: string): string
    requires MatchHead(true, s)
  {
    NewName(s[..3]) + FromOpen(s)
  }

  // The text with its first scalar call renamed, if it has one.
  function Renamed(edge: bool, s: string): Option<string>
    decreases |s|
  {
    if s == "" then None
    else if ScalarHead(edge, s) then Some(Replaced(s))
    else
      match Renamed(!IsTagChar(s[0]), s[1..])
      case None => None
      case Some(t) => Some([s[0]] + t)
  }

  // The letter that both names start with and neither new name contains.
  function CountM(s: string): nat {
    if s == "" then 0 else (if s[0] == 'M' || s[0] == 'm' then 1 else 0) + CountM(s[1..])
  }

  lemma {:induction false} CountMAdds(a: string, b: string)
    ensures CountM(a + b) == CountM(a) + CountM(b)
  {
    if a == "" {
      assert a + b == b;
    } else {
      assert (a + b)[1..] == a[1..] + b;
      CountMAdds(a[1..], b);
    }
  }

  lemma {:induction false} NoM(s: string)
    requires 'M' !in s && 'm' !in s
    ensures CountM(s) == 0
  {
    if s != "" { NoM(s[1..]); }
  }

  lemma ReplacedCounts(s: string)
    requires MatchHead(true, s)
    ensures CountM(Replaced(s)) < CountM(s)
  {
    var r := FromOpen(s);
    var n := |s| - |r|;
    assert r == s[n..];
    CountMSuffix(s[1..], n - 1);
    assert s[1..][n - 1..] == r;
    CountMAdds(NewName(s[..3]), r);
    NewNameCounts(s[..3]);
  }

  lemma CountMSuffix(s: string, n: nat)
    requires n <= |s|
    ensures CountM(s[n..]) <= CountM(s)
  {
    CountMAdds(s[..n], s[n..]);
    assert s == s[..n] + s[n..];
  }

  lemma NewNameCounts(name: string)
    ensures CountM(NewName(name)) == 0
  {
    NoM(NewName(name));
  }

  lemma {:induction false} RenamedCounts(edge: bool, s: string)
    requires Renamed(edge, s).Some?
    ensures CountM(Renamed(edge, s).value) < CountM(s)
    decreases |s|
  {
    if ScalarHead(edge, s) {
      ReplacedCounts(s);
    } else {
      RenamedCounts(!IsTagChar(s[0]), s[1..]);
      var t := Renamed(!IsTagChar(s[0]), s[1..]).value;
      assert ([s[0]] + t)[1..] == t;
    }
  }

  function Translate(s: string): string
    decreases CountM(s)
  {
    match Renamed(true, s)
    case None => s
    case Some(t) => RenamedCounts(true, s); Translate(t)
  }

  // ---------------------------------------------------------------- the loop

  // The whole program text is rewritten in place, one call a round, until a round finds none.
  method TranslateScalarMinmax(text: string) returns (sql: string)
    ensures sql == Translate(text)
  {
    sql := text;
    var changed := true;
    while changed
      invariant Translate(sql) == Translate(text)
      invariant !changed ==> Renamed(true, sql).None?
      decreases CountM(sql), changed
    {
      ghost var before := sql;
      sql, changed := RenameFirst(sql);
      if Renamed(true, before).Some? { RenamedCounts(true, before); }
    }
  }

  // One round: the first match whose call is closed and has a comma of its own is renamed.
  method RenameFirst(sql: string) returns (out: string, changed: bool)
    ensures changed <==> Renamed(true, sql).Some?
    ensures out == if changed then Renamed(true, sql).value else sql
  {
    var k := 0;
    RoundStarts(sql);
    while k < |sql|
      invariant 0 <= k <= |sql|
      invariant Rest(sql, k) == Renamed(true, sql)
    {
      RoundTurn(sql, k);
      if MatchHead(EdgeAt(sql, k), sql[k..]) {
        var start := |sql| - |FromOpen(sql[k..])|;
        assert sql[start..] == FromOpen(sql[k..]);
        var closed, comma, i := WalkCall(sql, start);
        if closed && comma {
          var name := sql[k..][..3];
          out := sql[..k] + (NewName(name) + "(") + sql[start + 1..i] + ")" + sql[i + 1..];
          changed := true;
          SameText(sql, k, start, i);
          return;
        }
      }
      k := k + 1;
    }
    out, changed := sql, false;
  }

  predicate EdgeAt(sql: string, k: nat)
    requires k <= |sql|
  {
    k == 0 || !IsTagChar(sql[k - 1])
  }

  // What renaming the first call at or after k makes of the text.
  ghost function Rest(sql: string, k: nat): Option<string>
    requires k <= |sql|
  {
    match Renamed(EdgeAt(sql, k), sql[k..])
    case None => None
    case Some(t) => Some(sql[..k] + t)
  }

  lemma RoundStarts(sql: string)
    ensures Rest(sql, 0) == Renamed(true, sql)
  {
    assert sql[0..] == sql;
    if Renamed(true, sql).Some? {
      assert sql[..0] + Renamed(true, sql).value == Renamed(true, sql).value;
    }
  }

  lemma RoundTurn(sql: string, k: nat)
    requires k < |sql|
    ensures !ScalarHead(EdgeAt(sql, k), sql[k..]) ==> Rest(sql, k) == Rest(sql, k + 1)
    ensures ScalarHead(EdgeAt(sql, k), sql[k..]) ==> Rest(sql, k) == Some(sql[..k] + Replaced(sql[k..]))
  {
    assert sql[k..][1..] == sql[k + 1..];
    if !ScalarHead(EdgeAt(sql, k), sql[k..]) && Renamed(EdgeAt(sql, k + 1), sql[k + 1..]).Some? {
      var t := Renamed(EdgeAt(sql, k + 1), sql[k + 1..]).value;
      assert sql[..k] + ([sql[k]] + t) == sql[..k + 1] + t;
    }
  }

  lemma SameText(sql: string, k: nat, start: nat, i: nat)
    requires k <= start < i < |sql| && sql[start] == '(' && sql[i] == ')' && MatchHead(true, sql[k..])
    requires sql[start..] == FromOpen(sql[k..])
    ensures var name := NewName(sql[k..][..3]);
            sql[..k] + (name + "(") + sql[start + 1..i] + ")" + sql[i + 1..] == sql[..k] + Replaced(sql[k..])
  {
    hide NewName, Spaces, Opens;
    var name := NewName(sql[k..][..3]);
    var inner, after := sql[start + 1..i], sql[i + 1..];
    assert sql[start..] == "(" + (inner + (")" + after));
    FourParts(sql[..k], name, inner, after);
  }

  lemma FourParts(a: string, name: string, inner: string, after: string)
    ensures a + (name + "(") + inner + ")" + after == a + (name + ("(" + (inner + (")" + after))))
  {
  }

  // From an opening parenthesis to the one that closes it.
  method WalkCall(sql: string, start: nat) returns (closed: bool, comma: bool, i: nat)
    requires start < |sql| && sql[start] == '('
    ensures Scan(sql[start..], 0, None, false) == if closed then Some(comma) else None
    ensures closed ==> start < i < |sql| && sql[i] == ')'
  {
    var depth := 0;
    var quote: Option<char> := None;
    comma := false;
    i := start;
    while i < |sql|
      invariant start <= i <= |sql| && (i == start ==> depth == 0 && quote == None)
      invariant i > start ==> depth > 0
      invariant Scan(sql[i..], depth, quote, comma) == Scan(sql[start..], 0, None, false)
    {
      ghost var rest := sql[i..];
      assert rest[1..] == sql[i + 1..] && (i + 2 <= |sql| ==> rest[2..] == sql[i + 2..]);
      if quote.Some? {
        if sql[i] == quote.value && i + 1 < |sql| && sql[i + 1] == quote.value {
          i := i + 2;
        } else {
          if sql[i] == quote.value { quote := None; }
          i := i + 1;
        }
      } else {
        if IsQuote(sql[i]) {
          quote := Some(sql[i]);
        } else if sql[i] == '(' {
          depth := depth + 1;
        } else if sql[i] == ')' {
          depth := depth - 1;
          if depth == 0 {
            closed := true;
            return;
          }
        } else if sql[i] == ',' && depth == 1 {
          comma := true;
        }
        i := i + 1;
      }
    }
    closed := false;
  }

  // ---------------------------------------------------------------- expression trees

  // Text between parentheses, quotes and commas; a quoted literal; a parenthesis with the
  // word before it; two expressions side by side, perhaps with a comma between them.
  datatype Expr =
    | Atom(text: string)
    | Str(quote: char, body: string)
    | Call(name: string, ws: string, inner: Expr)
    | Beside(left: Expr, comma: bool, right: Expr)

  function Sep(comma: bool): string {
    if comma then "," else ""
  }

  function Print(e: Expr): string {
    match e
    case Atom(text) => text
    case Str(q, body) => [q] + (Doubled(body, q) + [q])
    case Call(name, ws, inner) => (name + ws) + ("(" + (Print(inner) + ")"))
    case Beside(l, comma, r) => Print(l) + (Sep(comma) + Print(r))
  }

  predicate HasComma(e: Expr) {
    e.Beside? && (e.comma || HasComma(e.left) || HasComma(e.right))
  }

  // A call of MAX or MIN with two or more arguments.
  predicate Scalar(e: Expr) {
    e.Call? && (IsMax(e.name) || IsMin(e.name)) && HasComma(e.inner)
  }

  // What the rewriter is for: every scalar MAX and MIN renamed, at any depth.
  function Rewritten(e: Expr): Expr {
    match e
    case Atom(_) => e
    case Str(_, _) => e
    case Call(name, ws, inner) =>
      if Scalar(e) then Call(NewName(name), "", Rewritten(inner)) else Call(name, ws, Rewritten(inner))
    case Beside(l, comma, r) => Beside(Rewritten(l), comma, Rewritten(r))
  }

  // Whether a word may start after the text, given whether it might before it.
  predicate EdgeAfter(edge: bool, text: string) {
    if text == "" then edge else !IsTagChar(text[|text| - 1])
  }

  // No match starts inside the text.
  predicate Silent(edge: bool, text: string, after: string)
    decreases |text|
  {
    text != "" ==> !MatchHead(edge, text + after) && Silent(!IsTagChar(text[0]), text[1..], after)
  }

  predicate Tidy(text: string) {
    forall c <- text :: !IsQuote(c) && c != '(' && c != ')' && c != ','
  }

  // No closed call with a comma of its own starts inside the text.
  predicate Calm(edge: bool, text: string, after: string)
    decreases |text|
  {
    text != "" ==> !ScalarHead(edge, text + after) && Calm(!IsTagChar(text[0]), text[1..], after)
  }

  // The tree is a reading of its text: literals and parentheses are where the scanner sees
  // them, and outside literals a call is named MAX or MIN exactly where the pattern matches.
  predicate Reads(e: Expr, edge: bool, after: string) {
    match e
    case Atom(text) => Tidy(text) && Silent(edge, text, after)
    case Str(q, body) => IsQuote(q) && !(after != "" && after[0] == q)
    case Call(name, ws, inner) =>
      && Tidy(name) && (forall c <- ws :: IsSpace(c))
      && (if IsMax(name) || IsMin(name) then edge else Silent(edge, name + ws, "("))
      && Reads(inner, true, ")" + after)
    case Beside(l, comma, r) =>
      && Reads(l, edge, Sep(comma) + Print(r) + after)
      && Reads(r, EdgeAfter(edge, Print(l) + Sep(comma)), after)
  }

  // Inside no literal does the rewriter find a scalar call.
  predicate Quiet(e: Expr, edge: bool, after: string) {
    match e
    case Atom(_) => true
    case Str(_, _) => Calm(edge, Print(e), after)
    case Call(_, _, inner) => Quiet(inner, true, ")" + after)
    case Beside(l, comma, r) =>
      && Quiet(l, edge, Sep(comma) + Print(r) + after)
      && Quiet(r, EdgeAfter(edge, Print(l) + Sep(comma)), after)
  }

  // ---------------------------------------------------------------- walking over a tree

  lemma {:induction false} ScanTidy(text: string, after: string, depth: int, comma: bool)
    requires Tidy(text)
    ensures Scan(text + after, depth, None, comma) == Scan(after, depth, None, comma)
  {
    if text == "" {
      assert text + after == after;
    } else {
      assert text[0] in text && (text + after)[1..] == text[1..] + after;
      ScanTidy(text[1..], after, depth, comma);
    }
  }

  lemma {:induction false} ScanLiteral(body: string, q: char, after: string, depth: int, comma: bool)
    requires IsQuote(q) && !(after != "" && after[0] == q)
    ensures Scan((Doubled(body, q) + [q]) + after, depth, Some(q), comma) == Scan(after, depth, None, comma)
  {
    if body == "" {
      assert (Doubled(body, q) + [q]) + after == [q] + after && ([q] + after)[1..] == after;
    } else {
      ScanLiteral(body[1..], q, after, depth, comma);
      var w := if body[0] == q then [q, q] else [body[0]];
      var rest := (Doubled(body[1..], q) + [q]) + after;
      Peel(w, Doubled(body[1..], q), [q], after);
      Cut(w, rest);
      ScanQuoted(body[0], q, rest, depth, comma);
    }
  }

  lemma ScanQuoted(c: char, q: char, rest: string, depth: int, comma: bool)
    requires IsQuote(q)
    ensures var w := if c == q then [q, q] else [c];
            Scan(w + rest, depth, Some(q), comma) == Scan(rest, depth, Some(q), comma)
  {
    Cut(if c == q then [q, q] else [c], rest);
  }

  lemma ScanStr(body: string, q: char, after: string, depth: int, comma: bool)
    requires IsQuote(q) && !(after != "" && after[0] == q)
    ensures Scan(([q] + (Doubled(body, q) + [q])) + after, depth, None, comma) == Scan(after, depth, None, comma)
  {
    ScanLiteral(body, q, after, depth, comma);
    Assoc([q], Doubled(body, q) + [q], after);
    Cut([q], (Doubled(body, q) + [q]) + after);
  }

  // The walk passes over an expression and notes exactly its own commas.
  lemma {:induction false} ScanExpr(e: Expr, edge: bool, after: string, depth: int, comma: bool)
    requires Reads(e, edge, after) && depth >= 1
    ensures Scan(Print(e) + after, depth, None, comma)
         == Scan(after, depth, None, comma || (depth == 1 && HasComma(e)))
    decreases e, 0
  {
    hide Scan, Silent;
    match e
    case Atom(text) => ScanTidy(text, after, depth, comma);
    case Str(q, body) => ScanStr(body, q, after, depth, comma);
    case Call(name, ws, inner) =>
      ScanTidy(name + ws, ("(" + (Print(inner) + ")")) + after, depth, comma);
      Assoc(name + ws, "(" + (Print(inner) + ")"), after);
      ScanGroup(inner, after, depth, comma);
    case Beside(l, c, r) =>
      var noted := comma || (depth == 1 && HasComma(l));
      Assoc(Print(l), Sep(c) + Print(r), after);
      ScanExpr(l, edge, Sep(c) + Print(r) + after, depth, comma);
      Assoc(Sep(c), Print(r), after);
      ScanSep(c, Print(r) + after, depth, noted);
      ScanExpr(r, EdgeAfter(edge, Print(l) + Sep(c)), after, depth, noted || (depth == 1 && c));
  }

  lemma ScanSep(c: bool, after: string, depth: int, comma: bool)
    ensures Scan(Sep(c) + after, depth, None, comma) == Scan(after, depth, None, comma || (depth == 1 && c))
  {
    Cut(Sep(c), after);
    assert !c ==> Sep(c) + after == after;
  }

  lemma ScanGroup(inner: Expr, after: string, depth: int, comma: bool)
    requires Reads(inner, true, ")" + after) && depth >= 0
    ensures Scan(("(" + (Print(inner) + ")")) + after, depth, None, comma)
         == if depth == 0 then Some(comma || HasComma(inner)) else Scan(after, depth, None, comma)
    decreases inner, 1
  {
    var s := ("(" + (Print(inner) + ")")) + after;
    GroupText(Print(inner), after);
    ScanExpr(inner, true, ")" + after, depth + 1, comma);
    assert (")" + after)[1..] == after;
  }

  lemma GroupText(text: string, after: string)
    ensures ("(" + (text + ")")) + after == "(" + (text + (")" + after))
    ensures (("(" + (text + ")")) + after)[1..] == text + (")" + after)
  {
  }

  // ---------------------------------------------------------------- text without a match

  function Prefixed(text: string, t: Option<string>): Option<string> {
    match t
    case None => None
    case Some(rest) => Some(text + rest)
  }

  lemma PrefixedTwice(x: string, y: string, t: Option<string>)
    ensures Prefixed(x, Prefixed(y, t)) == Prefixed(x + y, t)
    ensures Prefixed("", t) == t
  {
    if t.Some? {
      Assoc(x, y, t.value);
      assert "" + t.value == t.value;
    }
  }

  lemma RenamedNext(edge: bool, c: char, rest: string)
    requires !ScalarHead(edge, [c] + rest)
    ensures Renamed(edge, [c] + rest) == Prefixed([c], Renamed(!IsTagChar(c), rest))
  {
    hide ScalarHead;
    assert ([c] + rest)[1..] == rest;
  }

  lemma {:induction false} RenamedCalm(edge: bool, text: string, after: string)
    requires Calm(edge, text, after)
    ensures Renamed(edge, text + after) == Prefixed(text, Renamed(EdgeAfter(edge, text), after))
    decreases |text|
  {
    hide Renamed, ScalarHead, Prefixed;
    var r := Renamed(EdgeAfter(edge, text), after);
    if text == "" {
      assert text + after == after;
      PrefixedTwice("", "", r);
    } else {
      var c, tail := text[0], text[1..];
      assert text == [c] + tail;
      Assoc([c], tail, after);
      RenamedNext(edge, c, tail + after);
      RenamedCalm(!IsTagChar(c), tail, after);
      PrefixedTwice([c], tail, r);
    }
  }

  lemma {:induction false} SilentCalm(edge: bool, text: string, after: string)
    requires Silent(edge, text, after)
    ensures Calm(edge, text, after)
    decreases |text|
  {
    hide MatchHead, Scan;
    if text != "" { SilentCalm(!IsTagChar(text[0]), text[1..], after); }
  }

  lemma RenamedSilent(edge: bool, text: string, after: string)
    requires Silent(edge, text, after)
    ensures Renamed(edge, text + after) == Prefixed(text, Renamed(EdgeAfter(edge, text), after))
  {
    hide *;
    SilentCalm(edge, text, after);
    RenamedCalm(edge, text, after);
  }

  lemma {:induction false} SilentNoM(edge: bool, text: string, after: string)
    requires 'M' !in text && 'm' !in text
    ensures Silent(edge, text, after)
    decreases |text|
  {
    if text != "" {
      SilentNoM(!IsTagChar(text[0]), text[1..], after);
      assert |text + after| >= 3 ==> (text + after)[..3][0] == text[0];
    }
  }

  // A match that starts in a text is decided at the first parenthesis after it.
  lemma {:induction false} OpensEarly(text: string, more: string)
    ensures Opens(text + ("(" + more)) == Opens(text + "(")
  {
    if text != "" && IsSpace(text[0]) {
      assert (text + ("(" + more))[1..] == text[1..] + ("(" + more) && (text + "(")[1..] == text[1..] + "(";
      OpensEarly(text[1..], more);
    }
  }

  lemma MatchEarly(edge: bool, text: string, more: string)
    requires text != ""
    ensures MatchHead(edge, text + ("(" + more)) == MatchHead(edge, text + "(")
  {
    var s, x := text + ("(" + more), text + "(";
    if |text| >= 3 {
      assert s[..3] == x[..3] && s[3..] == text[3..] + ("(" + more) && x[3..] == text[3..] + "(";
      OpensEarly(text[3..], more);
    } else if |s| >= 3 {
      assert s[..3][|text|] == '(';
      assert |x| >= 3 ==> x[..3][|text|] == '(';
    }
  }

  lemma {:induction false} SilentEarly(edge: bool, text: string, more: string)
    requires Silent(edge, text, "(")
    ensures Silent(edge, text, "(" + more)
    decreases |text|
  {
    if text != "" {
      MatchEarly(edge, text, more);
      SilentEarly(!IsTagChar(text[0]), text[1..], more);
    }
  }

  // A character that neither continues a match nor closes a literal.
  predicate Solid(c: char) {
    !IsSpace(c) && c != '(' && !IsQuote(c)
  }

  lemma {:induction false} OpensAlike(text: string, a: string, b: string)
    requires a != "" && b != "" && Solid(a[0]) && Solid(b[0])
    ensures Opens(text + a) == Opens(text + b)
  {
    if text == "" {
      assert text + a == a && text + b == b;
    } else if IsSpace(text[0]) {
      assert (text + a)[1..] == text[1..] + a && (text + b)[1..] == text[1..] + b;
      OpensAlike(text[1..], a, b);
    }
  }

  // A word that begins after a text plays no part in the matches that start inside it.
  lemma MatchAlike(edge: bool, text: string, a: string, b: string)
    requires text != "" && !IsTagChar(text[|text| - 1])
    requires a != "" && b != "" && Solid(a[0]) && Solid(b[0])
    ensures MatchHead(edge, text + a) == MatchHead(edge, text + b)
  {
    var s, x := text + a, text + b;
    if |text| >= 3 {
      assert s[..3] == x[..3] && s[3..] == text[3..] + a && x[3..] == text[3..] + b;
      OpensAlike(text[3..], a, b);
    } else {
      assert |s| >= 3 ==> s[..3][|text| - 1] == text[|text| - 1];
      assert |x| >= 3 ==> x[..3][|text| - 1] == text[|text| - 1];
    }
  }

  lemma {:induction false} SilentAlike(edge: bool, text: string, p: string, a: string, b: string)
    requires Silent(edge, text, p + a) && EdgeAfter(edge, text + p)
    requires a != "" && b != "" && Solid(a[0]) && Solid(b[0])
    ensures Silent(edge, text, p + b)
    decreases |text|
  {
    if text != "" {
      var z := text + p;
      assert z[1..] == text[1..] + p;
      assert |z| > 1 ==> z[1..][|z| - 2] == z[|z| - 1];
      Assoc(text, p, a);
      Assoc(text, p, b);
      MatchAlike(edge, z, a, b);
      SilentAlike(!IsTagChar(text[0]), text[1..], p, a, b);
    }
  }

  lemma EdgeAfterBoth(edge: bool, x: string, y: string)
    ensures EdgeAfter(EdgeAfter(edge, x), y) == EdgeAfter(edge, x + y)
  {
    assert y == "" ==> x + y == x;
  }

  // ---------------------------------------------------------------- one round on a tree

  // The tree with its first scalar call renamed.
  function FirstRenamed(e: Expr): Option<Expr> {
    match e
    case Atom(_) => None
    case Str(_, _) => None
    case Call(name, ws, inner) =>
      if Scalar(e) then Some(Call(NewName(name), "", inner))
      else
        (match FirstRenamed(inner)
         case None => None
         case Some(x) => Some(Call(name, ws, x)))
    case Beside(l, comma, r) =>
      match FirstRenamed(l)
      case Some(x) => Some(Beside(x, comma, r))
      case None =>
        match FirstRenamed(r)
        case None => None
        case Some(x) => Some(Beside(l, comma, x))
  }

  // What a round makes of a tree followed by other text.
  function RoundOn(e: Expr, edge: bool, after: string): Option<string> {
    match FirstRenamed(e)
    case Some(x) => Some(Print(x) + after)
    case None => Prefixed(Print(e), Renamed(EdgeAfter(edge, Print(e)), after))
  }

  lemma {:induction false} RoundPrint(e: Expr, edge: bool, after: string)
    requires Reads(e, edge, after) && Quiet(e, edge, after)
    ensures Renamed(edge, Print(e) + after) == RoundOn(e, edge, after)
    decreases e, 0
  {
    hide Renamed, Silent, Calm, MatchHead;
    match e
    case Atom(text) => RenamedSilent(edge, text, after);
    case Str(q, body) => RenamedCalm(edge, Print(e), after);
    case Call(name, ws, inner) =>
      if Scalar(e) { RoundScalar(name, ws, inner, edge, after); } else { RoundInside(name, ws, inner, edge, after); }
    case Beside(l, comma, r) =>
      var mid := Sep(comma) + Print(r);
      Assoc(Print(l), mid, after);
      RoundPrint(l, edge, mid + after);
      if FirstRenamed(l).Some? {
        Assoc(Print(FirstRenamed(l).value), mid, after);
      } else {
        RoundPrint(r, EdgeAfter(edge, Print(l) + Sep(comma)), after);
        RoundBeside(l, comma, r, edge, after);
      }
  }

  lemma RoundBeside(l: Expr, comma: bool, r: Expr, edge: bool, after: string)
    requires FirstRenamed(l).None?
    requires Renamed(edge, Print(l) + ((Sep(comma) + Print(r)) + after))
          == RoundOn(l, edge, (Sep(comma) + Print(r)) + after)
    requires Renamed(EdgeAfter(edge, Print(l) + Sep(comma)), Print(r) + after)
          == RoundOn(r, EdgeAfter(edge, Print(l) + Sep(comma)), after)
    ensures Renamed(edge, Print(l) + ((Sep(comma) + Print(r)) + after)) == RoundOn(Beside(l, comma, r), edge, after)
  {
    hide Renamed, Sep, EdgeAfter;
    var mid := Sep(comma) + Print(r);
    RoundSep(comma, Print(r) + after, EdgeAfter(edge, Print(l)));
    EdgeAfterBoth(edge, Print(l), Sep(comma));
    EdgeAfterBoth(edge, Print(l), mid);
    EdgeAfterBoth(EdgeAfter(edge, Print(l)), Sep(comma), Print(r));
    Assoc(Sep(comma), Print(r), after);
    if FirstRenamed(r).Some? {
      var y := FirstRenamed(r).value;
      Assoc(Sep(comma), Print(y), after);
      Assoc(Print(l), Sep(comma) + Print(y), after);
    } else {
      var tail := Renamed(EdgeAfter(edge, Print(l) + mid), after);
      PrefixedTwice(Sep(comma), Print(r), tail);
      PrefixedTwice(Print(l), mid, tail);
    }
  }

  lemma RoundSep(comma: bool, after: string, edge: bool)
    ensures Renamed(edge, Sep(comma) + after) == Prefixed(Sep(comma), Renamed(EdgeAfter(edge, Sep(comma)), after))
  {
    SilentNoM(edge, Sep(comma), after);
    RenamedSilent(edge, Sep(comma), after);
  }

  // The match at the head of a scalar call is the one that is replaced.
  lemma RoundScalar(name: string, ws: string, inner: Expr, edge: bool, after: string)
    requires Scalar(Call(name, ws, inner)) && Reads(Call(name, ws, inner), edge, after)
    ensures Renamed(edge, Print(Call(name, ws, inner)) + after)
         == Some(Print(Call(NewName(name), "", inner)) + after)
  {
    hide Silent, Scan;
    var group := "(" + (Print(inner) + ")");
    var s := Print(Call(name, ws, inner)) + after;
    HeadOfCall(name, ws, group, after);
    ScanGroup(inner, after, 0, false);
    assert s == (name + ws) + group + after;
    assert ScalarHead(edge, s);
    assert NewName(name) + "" == NewName(name);
    Assoc(NewName(name), group, after);
  }

  lemma HeadOfCall(name: string, ws: string, group: string, after: string)
    requires IsMax(name) || IsMin(name)
    requires group != "" && group[0] == '(' && forall c <- ws :: IsSpace(c)
    ensures var s := (name + ws) + group + after;
            s[..3] == name && MatchHead(true, s) && FromOpen(s) == group + after
  {
    var s := (name + ws) + group + after;
    assert s == name + (ws + (group + after));
    Cut(name, ws + (group + after));
    SpacesThen(ws, group + after);
    Cut(ws, group + after);
  }

  lemma {:induction false} SpacesThen(ws: string, rest: string)
    requires (forall c <- ws :: IsSpace(c)) && rest != "" && !IsSpace(rest[0])
    ensures Spaces(ws + rest) == |ws|
  {
    if ws == "" {
      assert ws + rest == rest;
    } else {
      assert ws[0] in ws && (ws + rest)[1..] == ws[1..] + rest;
      SpacesThen(ws[1..], rest);
    }
  }

  // Nothing of any other call is replaced but what its argument holds.
  lemma RoundInside(name: string, ws: string, inner: Expr, edge: bool, after: string)
    requires !Scalar(Call(name, ws, inner)) && Reads(Call(name, ws, inner), edge, after)
    requires Quiet(inner, true, ")" + after)
    ensures Renamed(edge, Print(Call(name, ws, inner)) + after) == RoundOn(Call(name, ws, inner), edge, after)
    decreases inner, 1
  {
    hide Renamed, Silent, MatchHead, Scan;
    var text, close := Print(inner), ")" + after;
    var e := Call(name, ws, inner);
    var tail := Prefixed(text, Prefixed(")", Renamed(true, after)));
    CallParts(name + ws, text, after);
    PassName(name, ws, inner, edge, after);
    SilentNoM(EdgeAfter(edge, name + ws), "(", text + close);
    RenamedSilent(EdgeAfter(edge, name + ws), "(", text + close);
    RoundPrint(inner, true, close);
    SilentNoM(EdgeAfter(true, text), ")", after);
    RenamedSilent(EdgeAfter(true, text), ")", after);
    assert EdgeAfter(edge, Print(e));
    if FirstRenamed(inner).Some? {
      CallParts(name + ws, Print(FirstRenamed(inner).value), after);
    } else if Renamed(true, after).Some? {
      CallParts(name + ws, text, Renamed(true, after).value);
    }
  }

  lemma CallParts(head: string, text: string, after: string)
    ensures (head + ("(" + (text + ")"))) + after == head + ("(" + (text + (")" + after)))
  {
    Assoc(head, "(" + (text + ")"), after);
    Assoc("(", text + ")", after);
    Assoc(text, ")", after);
  }

  lemma PassName(name: string, ws: string, inner: Expr, edge: bool, after: string)
    requires !Scalar(Call(name, ws, inner)) && Reads(Call(name, ws, inner), edge, after)
    ensures var rest := "(" + (Print(inner) + (")" + after));
            Renamed(edge, (name + ws) + rest) == Prefixed(name + ws, Renamed(EdgeAfter(edge, name + ws), rest))
  {
    var rest := "(" + (Print(inner) + (")" + after));
    if IsMax(name) || IsMin(name) {
      PassAggregate(name, ws, inner, edge, after);
    } else {
      SilentEarly(edge, name + ws, Print(inner) + (")" + after));
      RenamedSilent(edge, name + ws, rest);
    }
  }

  // A MAX or MIN of one argument matches but is passed over.
  lemma PassAggregate(name: string, ws: string, inner: Expr, edge: bool, after: string)
    requires !Scalar(Call(name, ws, inner)) && Reads(Call(name, ws, inner), edge, after)
    requires IsMax(name) || IsMin(name)
    ensures var rest := "(" + (Print(inner) + (")" + after));
            Renamed(edge, (name + ws) + rest) == Prefixed(name + ws, Renamed(EdgeAfter(edge, name + ws), rest))
  {
    hide *;
    var rest := "(" + (Print(inner) + (")" + after));
    AggregateIsNoScalar(name, ws, inner, edge, after);
    var tail := (name + ws)[1..];
    TailOfName(name, ws, edge);
    SilentNoM(false, tail, rest);
    RenamedSilent(false, tail, rest);
    PassHead(edge, name + ws, rest);
  }

  lemma PassHead(edge: bool, text: string, rest: string)
    requires text != "" && !ScalarHead(edge, text + rest) && IsTagChar(text[0])
    requires Renamed(false, text[1..] + rest) == Prefixed(text[1..], Renamed(EdgeAfter(edge, text), rest))
    ensures Renamed(edge, text + rest) == Prefixed(text, Renamed(EdgeAfter(edge, text), rest))
  {
    hide ScalarHead, Renamed, Prefixed;
    assert text == [text[0]] + text[1..];
    Assoc([text[0]], text[1..], rest);
    RenamedNext(edge, text[0], text[1..] + rest);
    PrefixedTwice([text[0]], text[1..], Renamed(EdgeAfter(edge, text), rest));
  }

  lemma TailOfName(name: string, ws: string, edge: bool)
    requires (IsMax(name) || IsMin(name)) && forall c <- ws :: IsSpace(c)
    ensures var tail := (name + ws)[1..];
            && 'M' !in tail && 'm' !in tail && EdgeAfter(false, tail) == EdgeAfter(edge, name + ws)
    ensures IsTagChar((name + ws)[0])
  {
    var tail := (name + ws)[1..];
    forall c | c in tail ensures c != 'M' && c != 'm' {
      var k :| 0 <= k < |tail| && tail[k] == c;
      if k >= 2 { assert tail[k] == ws[k - 2] && ws[k - 2] in ws; }
    }
  }

  lemma AggregateIsNoScalar(name: string, ws: string, inner: Expr, edge: bool, after: string)
    requires !Scalar(Call(name, ws, inner)) && Reads(Call(name, ws, inner), edge, after)
    requires IsMax(name) || IsMin(name)
    ensures (forall c <- ws :: IsSpace(c)) && name + ws != ""
    ensures !ScalarHead(edge, (name + ws) + ("(" + (Print(inner) + (")" + after))))
  {
    hide Silent, Scan, MatchHead;
    var group := "(" + (Print(inner) + ")");
    GroupText(Print(inner), after);
    HeadOfCall(name, ws, group, after);
    Assoc(name + ws, group, after);
    ScanGroup(inner, after, 0, false);
  }
}
