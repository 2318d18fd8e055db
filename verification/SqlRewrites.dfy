/** Rounds of the rewriter on expression trees: what each keeps, and when all of them
    together rename exactly the scalar calls.
  */
module SqlRewrites {
  import opened Options
  import opened SqlText
  import G = SqlGrammar
  import opened SqlMinMax

  // ---------------------------------------------------------------- a round keeps the reading

  lemma {:induction false} ReadsAlike(e: Expr, edge: bool, p: string, a: string, b: string)
    requires Reads(e, edge, p + a) && EdgeAfter(edge, Print(e) + p)
    requires a != "" && b != "" && Solid(a[0]) && Solid(b[0])
    ensures Reads(e, edge, p + b)
  {
    hide Silent;
    match e
    case Atom(text) => SilentAlike(edge, text, p, a, b);
    case Str(q, body) =>
      assert (p + b)[0] == if p == "" then b[0] else (p + a)[0];
    case Call(name, ws, inner) =>
      Assoc(")", p, a);
      Assoc(")", p, b);
      LastOfCall(name + ws, Print(inner), p, edge);
      ReadsAlike(inner, true, ")" + p, a, b);
    case Beside(l, comma, r) =>
      var mid := Sep(comma) + Print(r);
      Assoc(mid, p, a);
      Assoc(mid, p, b);
      Assoc(Print(l), mid, p);
      ReadsAlike(l, edge, mid + p, a, b);
      Assoc(Sep(comma), Print(r), p);
      Assoc(Print(l), Sep(comma), Print(r) + p);
      EdgeAfterBoth(edge, Print(l) + Sep(comma), Print(r) + p);
      ReadsAlike(r, EdgeAfter(edge, Print(l) + Sep(comma)), p, a, b);
  }

  lemma LastOfCall(head: string, text: string, p: string, edge: bool)
    ensures EdgeAfter(edge, (head + ("(" + (text + ")"))) + p) == EdgeAfter(true, text + (")" + p))
  {
    CallParts(head, text, p);
    assert p != "" ==> (text + (")" + p))[|text| + |p|] == p[|p| - 1];
  }

  // Words that may stand for each other in front of the same text.
  predicate Twins(a: string, b: string) {
    && a != "" && b != "" && Solid(a[0]) && Solid(b[0]) && Tidy(a) && Tidy(b)
  }

  // Where the round changes a tree: the texts agree before and after one word, and a word
  // may begin there.
  lemma {:induction false} FirstDifference(e: Expr, edge: bool, after: string)
    returns (p: string, a: string, b: string, rest: string)
    requires Reads(e, edge, after) && FirstRenamed(e).Some?
    ensures Print(e) == p + (a + rest) && Print(FirstRenamed(e).value) == p + (b + rest) && EdgeAfter(edge, p)
    ensures Twins(a, b) && CountM(b) < CountM(a)
  {
    hide Silent, Twins, CountM;
    match e
    case Call(name, ws, inner) =>
      if Scalar(e) {
        p, a, b, rest := "", name + ws, NewName(name), "(" + (Print(inner) + ")");
        NewWord(name, ws);
      } else {
        var x := FirstRenamed(inner).value;
        p, a, b, rest := FirstDifference(inner, true, ")" + after);
        InsideParts(name + ws, Print(inner), p, a, rest);
        InsideParts(name + ws, Print(x), p, b, rest);
        p, rest := (name + ws) + ("(" + p), rest + ")";
      }
    case Beside(l, comma, r) =>
      if FirstRenamed(l).Some? {
        p, a, b, rest := FirstDifference(l, edge, Sep(comma) + Print(r) + after);
        FourParts2(p, a, rest, Sep(comma) + Print(r));
        FourParts2(p, b, rest, Sep(comma) + Print(r));
        rest := rest + (Sep(comma) + Print(r));
      } else {
        p, a, b, rest := FirstDifference(r, EdgeAfter(edge, Print(l) + Sep(comma)), after);
        EdgeAfterBoth(edge, Print(l) + Sep(comma), p);
        FourParts4(Print(l), Sep(comma), p, a + rest);
        FourParts4(Print(l), Sep(comma), p, b + rest);
        p := (Print(l) + Sep(comma)) + p;
      }
  }

  lemma NewWord(name: string, ws: string)
    requires (IsMax(name) || IsMin(name)) && Tidy(name) && forall c <- ws :: IsSpace(c)
    ensures Twins(name + ws, NewName(name)) && CountM(NewName(name)) < CountM(name + ws)
    ensures NewName(name) + "" == NewName(name)
  {
    NewNameCounts(name);
    assert (name + ws)[0] == name[0];
  }

  lemma FourParts4(x: string, y: string, p: string, a: string)
    ensures x + (y + (p + a)) == ((x + y) + p) + a
  {
  }

  lemma InsideParts(head: string, text: string, p: string, a: string, rest: string)
    requires text == p + (a + rest)
    ensures head + ("(" + (text + ")")) == (head + ("(" + p)) + (a + (rest + ")"))
    ensures EdgeAfter(true, p) ==> forall edge: bool :: EdgeAfter(edge, head + ("(" + p))
  {
  }

  lemma FourParts2(p: string, a: string, rest: string, more: string)
    ensures (p + (a + rest)) + more == p + (a + (rest + more))
  {
  }

  lemma {:induction false} SameShape(e: Expr, edge: bool)
    requires FirstRenamed(e).Some?
    ensures EdgeAfter(edge, Print(FirstRenamed(e).value)) == EdgeAfter(edge, Print(e))
    ensures HasComma(FirstRenamed(e).value) == HasComma(e)
  {
    if e.Beside? {
      var l, r := e.left, Sep(e.comma) + Print(e.right);
      EdgeAfterBoth(edge, Print(l), r);
      EdgeAfterBoth(EdgeAfter(edge, Print(l)), Sep(e.comma), Print(e.right));
      if FirstRenamed(l).Some? {
        SameShape(l, edge);
        EdgeAfterBoth(edge, Print(FirstRenamed(l).value), r);
      } else {
        var x := FirstRenamed(e.right).value;
        var between := EdgeAfter(EdgeAfter(edge, Print(l)), Sep(e.comma));
        SameShape(e.right, between);
        EdgeAfterBoth(EdgeAfter(edge, Print(l)), Sep(e.comma), Print(x));
        EdgeAfterBoth(edge, Print(l), Sep(e.comma) + Print(x));
      }
    } else {
      assert e.Call?;
      SameEdgeOfCall(e, FirstRenamed(e).value, edge);
    }
  }

  lemma SameEdgeOfCall(e: Expr, x: Expr, edge: bool)
    requires e.Call? && x.Call?
    ensures EdgeAfter(edge, Print(e)) == EdgeAfter(edge, Print(x))
  {
    assert Print(e)[|Print(e)| - 1] == ')' && Print(x)[|Print(x)| - 1] == ')';
  }

  lemma NewNameSilent(name: string, edge: bool)
    ensures var n := NewName(name); n + "" == n && Tidy(n) && !IsMax(n) && !IsMin(n) && Silent(edge, n, "(")
  {
    hide Silent;
    SilentNoM(edge, NewName(name), "(");
  }

  lemma NewNameReads(e: Expr, edge: bool, after: string)
    requires Scalar(e) && Reads(e, edge, after)
    ensures Reads(Call(NewName(e.name), "", e.inner), edge, after)
  {
    hide Silent, NewName, Tidy, IsMax, IsMin, HasComma, G.Doubled, Print;
    NewNameSilent(e.name, edge);
  }

  lemma {:induction false} ReadsRenamed(e: Expr, edge: bool, after: string)
    requires Reads(e, edge, after) && FirstRenamed(e).Some?
    ensures Reads(FirstRenamed(e).value, edge, after)
  {
    hide Silent, G.Doubled, HasComma;
    match e
    case Call(name, ws, inner) =>
      if Scalar(e) {
        NewNameReads(e, edge, after);
      } else {
        ReadsRenamed(inner, true, ")" + after);
      }
    case Beside(l, comma, r) =>
      if FirstRenamed(l).Some? {
        var x := FirstRenamed(l).value;
        ReadsRenamed(l, edge, Sep(comma) + Print(r) + after);
        SameShape(l, edge);
        EdgeAfterBoth(edge, Print(l), Sep(comma));
        EdgeAfterBoth(edge, Print(x), Sep(comma));
      } else {
        ReadsRenamedRight(l, comma, r, edge, after);
        ReadsRenamed(r, EdgeAfter(edge, Print(l) + Sep(comma)), after);
      }
  }

  lemma ReadsRenamedRight(l: Expr, comma: bool, r: Expr, edge: bool, after: string)
    requires Reads(Beside(l, comma, r), edge, after) && FirstRenamed(r).Some?
    ensures Reads(l, edge, Sep(comma) + Print(FirstRenamed(r).value) + after)
  {
    hide Silent, FirstRenamed;
    var p, a, b, rest := FirstDifference(r, EdgeAfter(edge, Print(l) + Sep(comma)), after);
    FiveParts(Sep(comma), p, a, rest, after);
    FiveParts(Sep(comma), p, b, rest, after);
    EdgeAfterBoth(edge, Print(l) + Sep(comma), p);
    Assoc(Print(l), Sep(comma), p);
    ReadsAlike(l, edge, Sep(comma) + p, a + (rest + after), b + (rest + after));
  }

  lemma FiveParts(y: string, p: string, a: string, rest: string, after: string)
    ensures y + (p + (a + rest)) + after == (y + p) + (a + (rest + after))
  {
  }

  // ---------------------------------------------------------------- a round keeps the literals quiet

  lemma {:induction false} ScanInQuote(text: string, after: string, depth: int, q: char, comma: bool)
    requires Tidy(text) && IsQuote(q)
    ensures Scan(text + after, depth, Some(q), comma) == Scan(after, depth, Some(q), comma)
  {
    if text == "" {
      assert text + after == after;
    } else {
      assert text[0] in text && (text + after)[1..] == text[1..] + after;
      ScanInQuote(text[1..], after, depth, q, comma);
    }
  }

  // One word for another makes no difference to a walk that began before it.
  lemma {:induction false} ScanTwins(
    x: string, a: string, b: string, rest: string, depth: int, quote: Option<char>, comma: bool)
    requires Twins(a, b) && (quote.Some? ==> IsQuote(quote.value))
    ensures Scan(x + (a + rest), depth, quote, comma) == Scan(x + (b + rest), depth, quote, comma)
    decreases |x|
  {
    var s, t := x + (a + rest), x + (b + rest);
    if x == "" {
      assert s == a + rest && t == b + rest;
      if quote.None? {
        ScanTidy(a, rest, depth, comma);
        ScanTidy(b, rest, depth, comma);
      } else {
        ScanInQuote(a, rest, depth, quote.value, comma);
        ScanInQuote(b, rest, depth, quote.value, comma);
      }
    } else if quote.Some? && s[0] == quote.value && Second(s, quote.value) {
      TwinTails(x, a, b, rest);
      assert |x| > 1;
      ScanTwins(x[2..], a, b, rest, depth, quote, comma);
    } else {
      TwinTails(x, a, b, rest);
      ScanTwinsOn(x, a, b, rest, depth, quote, comma);
    }
  }

  lemma TwinTails(x: string, a: string, b: string, rest: string)
    requires x != "" && Twins(a, b)
    ensures var s, t := x + (a + rest), x + (b + rest);
            && s[0] == t[0] == x[0]
            && s[1..] == x[1..] + (a + rest) && t[1..] == x[1..] + (b + rest)
            && (|x| > 1 ==> s[2..] == x[2..] + (a + rest) && t[2..] == x[2..] + (b + rest))
            && (forall q :: IsQuote(q) ==> Second(s, q) == Second(t, q) == (|x| > 1 && x[1] == q))
  {
  }

  lemma ScanTwinsOn(x: string, a: string, b: string, rest: string, depth: int, quote: Option<char>, comma: bool)
    requires Twins(a, b) && (quote.Some? ==> IsQuote(quote.value)) && x != ""
    requires quote.Some? ==> !(x[0] == quote.value && Second(x + (a + rest), quote.value))
    ensures Scan(x + (a + rest), depth, quote, comma) == Scan(x + (b + rest), depth, quote, comma)
    decreases |x|, 0
  {
    hide Twins;
    TwinTails(x, a, b, rest);
    var c, tail := x[0], x[1..];
    if quote.Some? {
      ScanTwins(tail, a, b, rest, depth, if c == quote.value then None else quote, comma);
    } else if IsQuote(c) {
      ScanTwins(tail, a, b, rest, depth, Some(c), comma);
    } else if c == '(' {
      ScanTwins(tail, a, b, rest, depth + 1, None, comma);
    } else if c == ')' {
      ScanTwins(tail, a, b, rest, depth - 1, None, comma);
    } else {
      ScanTwins(tail, a, b, rest, depth, None, comma || (c == ',' && depth == 1));
    }
  }

  lemma {:induction false} SpacesSolid(text: string, y: string)
    requires y != "" && Solid(y[0])
    ensures Spaces(text + y) == Spaces(text)
  {
    if text == "" {
      assert text + y == y;
    } else if IsSpace(text[0]) {
      assert (text + y)[1..] == text[1..] + y;
      SpacesSolid(text[1..], y);
    }
  }

  // A match that starts in z opens its parenthesis there.
  lemma OpenInside(z: string, y: string) returns (k: nat)
    requires z != "" && !IsTagChar(z[|z| - 1]) && y != "" && Solid(y[0]) && MatchHead(true, z + y)
    ensures k <= |z| && |z| >= 3 && k == 3 + Spaces(z[3..]) && FromOpen(z + y) == z[k..] + y
  {
    var s := z + y;
    assert forall k :: 0 <= k < 3 ==> s[..3][k] == s[k] && IsTagChar(s[k]);
    assert s[|z| - 1] == z[|z| - 1];
    assert s[3..] == z[3..] + y;
    SpacesSolid(z[3..], y);
    var n := Spaces(z[3..]);
    k := 3 + n;
    assert z[3..][n..] == z[k..];
    assert (z[3..] + y)[n..] == z[3..][n..] + y;
  }

  lemma ScalarTwins(edge: bool, z: string, a: string, b: string, rest: string)
    requires z != "" && !IsTagChar(z[|z| - 1]) && Twins(a, b)
    ensures ScalarHead(edge, z + (a + rest)) == ScalarHead(edge, z + (b + rest))
  {
    hide MatchHead, Scan, Spaces, Opens;
    assert (a + rest)[0] == a[0] && (b + rest)[0] == b[0];
    MatchAlike(edge, z, a + rest, b + rest);
    if MatchHead(edge, z + (a + rest)) {
      MatchEdge(edge, z + (a + rest));
      MatchEdge(edge, z + (b + rest));
      var k := OpenInside(z, a + rest);
      var j := OpenInside(z, b + rest);
      ScanTwins(z[k..], a, b, rest, 0, None, false);
    }
  }

  lemma MatchEdge(edge: bool, s: string)
    requires MatchHead(edge, s)
    ensures edge && MatchHead(true, s)
  {
  }

  lemma {:induction false} CalmAlike(edge: bool, text: string, p: string, a: string, b: string, rest: string)
    requires Twins(a, b) && EdgeAfter(edge, text + p)
    ensures Calm(edge, text, p + (a + rest)) == Calm(edge, text, p + (b + rest))
    decreases |text|
  {
    hide ScalarHead, Twins;
    if text != "" {
      var z := text + p;
      assert z[1..] == text[1..] + p;
      assert |z| > 1 ==> z[1..][|z| - 2] == z[|z| - 1];
      Assoc(text, p, a + rest);
      Assoc(text, p, b + rest);
      ScalarTwins(edge, z, a, b, rest);
      CalmAlike(!IsTagChar(text[0]), text[1..], p, a, b, rest);
    }
  }

  lemma {:induction false} QuietAlike(e: Expr, edge: bool, p: string, a: string, b: string, rest: string)
    requires Twins(a, b) && EdgeAfter(edge, Print(e) + p)
    ensures Quiet(e, edge, p + (a + rest)) == Quiet(e, edge, p + (b + rest))
  {
    hide Calm, Twins, G.Doubled;
    match e
    case Atom(_) =>
    case Str(_, _) => CalmAlike(edge, Print(e), p, a, b, rest);
    case Call(name, ws, inner) =>
      Assoc(")", p, a + rest);
      Assoc(")", p, b + rest);
      LastOfCall(name + ws, Print(inner), p, edge);
      QuietAlike(inner, true, ")" + p, a, b, rest);
    case Beside(l, comma, r) =>
      var mid := Sep(comma) + Print(r);
      Assoc(mid, p, a + rest);
      Assoc(mid, p, b + rest);
      Assoc(Print(l), mid, p);
      QuietAlike(l, edge, mid + p, a, b, rest);
      Assoc(Sep(comma), Print(r), p);
      Assoc(Print(l), Sep(comma), Print(r) + p);
      EdgeAfterBoth(edge, Print(l) + Sep(comma), Print(r) + p);
      QuietAlike(r, EdgeAfter(edge, Print(l) + Sep(comma)), p, a, b, rest);
  }

  // A round neither quiets nor disturbs a literal.
  lemma {:induction false} QuietRenamed(e: Expr, edge: bool, after: string)
    requires Reads(e, edge, after) && FirstRenamed(e).Some?
    ensures Quiet(FirstRenamed(e).value, edge, after) == Quiet(e, edge, after)
  {
    hide Silent, Calm, G.Doubled, HasComma;
    match e
    case Call(name, ws, inner) =>
      if !Scalar(e) { QuietRenamed(inner, true, ")" + after); }
    case Beside(l, comma, r) =>
      if FirstRenamed(l).Some? {
        var x := FirstRenamed(l).value;
        QuietRenamed(l, edge, Sep(comma) + Print(r) + after);
        SameShape(l, edge);
        EdgeAfterBoth(edge, Print(l), Sep(comma));
        EdgeAfterBoth(edge, Print(x), Sep(comma));
      } else {
        QuietRenamedRight(l, comma, r, edge, after);
        QuietRenamed(r, EdgeAfter(edge, Print(l) + Sep(comma)), after);
      }
  }

  lemma QuietRenamedRight(l: Expr, comma: bool, r: Expr, edge: bool, after: string)
    requires Reads(Beside(l, comma, r), edge, after) && FirstRenamed(r).Some?
    ensures Quiet(l, edge, Sep(comma) + Print(FirstRenamed(r).value) + after)
         == Quiet(l, edge, Sep(comma) + Print(r) + after)
  {
    hide Silent, FirstRenamed, Quiet;
    var p, a, b, rest := FirstDifference(r, EdgeAfter(edge, Print(l) + Sep(comma)), after);
    FiveParts(Sep(comma), p, a, rest, after);
    FiveParts(Sep(comma), p, b, rest, after);
    EdgeAfterBoth(edge, Print(l) + Sep(comma), p);
    Assoc(Print(l), Sep(comma), p);
    QuietAlike(l, edge, Sep(comma) + p, a, b, rest + after);
  }

  lemma FewerNames(e: Expr, edge: bool, after: string)
    requires Reads(e, edge, after) && FirstRenamed(e).Some?
    ensures CountM(Print(FirstRenamed(e).value)) < CountM(Print(e))
  {
    hide *;
    var p, a, b, rest := FirstDifference(e, edge, after);
    CountMAdds(p, a + rest);
    CountMAdds(p, b + rest);
    CountMAdds(a, rest);
    CountMAdds(b, rest);
  }

  // ---------------------------------------------------------------- all rounds

  lemma {:induction false} RewrittenAfterRound(e: Expr, edge: bool, after: string)
    requires Reads(e, edge, after)
    ensures FirstRenamed(e).None? ==> Rewritten(e) == e
    ensures FirstRenamed(e).Some? ==> Rewritten(FirstRenamed(e).value) == Rewritten(e)
  {
    hide Silent, G.Doubled;
    match e
    case Atom(_) =>
    case Str(_, _) =>
    case Call(name, ws, inner) =>
      RewrittenAfterRound(inner, true, ")" + after);
      if !Scalar(e) && FirstRenamed(inner).Some? { SameShape(inner, true); }
    case Beside(l, comma, r) =>
      RewrittenAfterRound(l, edge, Sep(comma) + Print(r) + after);
      RewrittenAfterRound(r, EdgeAfter(edge, Print(l) + Sep(comma)), after);
  }

  // No scalar call is left, so translating again changes nothing.
  lemma {:induction false} NothingLeft(s: string)
    ensures Renamed(true, Translate(s)).None? && Translate(Translate(s)) == Translate(s)
    decreases CountM(s)
  {
    if Renamed(true, s).Some? {
      RenamedCounts(true, s);
      NothingLeft(Renamed(true, s).value);
    }
  }

  lemma RoundOnAll(e: Expr)
    requires Reads(e, true, "") && Quiet(e, true, "")
    ensures Renamed(true, Print(e))
         == (match FirstRenamed(e) case None => None case Some(x) => Some(Print(x)))
  {
    hide Reads, Quiet, Print, FirstRenamed;
    var s := Print(e);
    RoundPrint(e, true, "");
    assert s + "" == s;
    assert Renamed(EdgeAfter(true, s), "") == None;
    if FirstRenamed(e).Some? {
      assert Print(FirstRenamed(e).value) + "" == Print(FirstRenamed(e).value);
    }
  }

  // While the literals are quiet, translating the text of a tree gives the text of the tree
  // with every scalar call renamed.
  lemma {:induction false} TranslatesTree(e: Expr)
    requires Reads(e, true, "") && Quiet(e, true, "")
    ensures Translate(Print(e)) == Print(Rewritten(e))
    decreases CountM(Print(e))
  {
    hide Rewritten, Reads, Quiet, Print, FirstRenamed;
    RoundOnAll(e);
    RewrittenAfterRound(e, true, "");
    if FirstRenamed(e).Some? {
      FewerNames(e, true, "");
      ReadsRenamed(e, true, "");
      QuietRenamed(e, true, "");
      TranslatesTree(FirstRenamed(e).value);
    }
  }

  // ---------------------------------------------------------------- exactly when it is right

  // Renaming every scalar call leaves the literals as quiet as they were.
  lemma {:induction false} QuietRewritten(e: Expr)
    requires Reads(e, true, "")
    ensures Quiet(Rewritten(e), true, "") == Quiet(e, true, "")
    decreases CountM(Print(e))
  {
    hide Rewritten, Reads, Quiet, Print, FirstRenamed;
    RewrittenAfterRound(e, true, "");
    if FirstRenamed(e).Some? {
      FewerNames(e, true, "");
      ReadsRenamed(e, true, "");
      QuietRenamed(e, true, "");
      QuietRewritten(FirstRenamed(e).value);
    }
  }

  // The rewriter finds something to rename later in a text if it would find it there alone.
  lemma {:induction false} RenamedLater(edge: bool, text: string, rest: string)
    requires Renamed(EdgeAfter(edge, text), rest).Some?
    ensures Renamed(edge, text + rest).Some?
    decreases |text|
  {
    hide ScalarHead, Replaced;
    if text == "" {
      assert text + rest == rest;
    } else {
      assert (text + rest)[1..] == text[1..] + rest;
      RenamedLater(!IsTagChar(text[0]), text[1..], rest);
    }
  }

  lemma {:induction false} NoisyText(edge: bool, text: string, after: string)
    requires !Calm(edge, text, after)
    ensures Renamed(edge, text + after).Some?
    decreases |text|
  {
    hide ScalarHead, Replaced;
    if !ScalarHead(edge, text + after) {
      assert (text + after)[1..] == text[1..] + after;
      NoisyText(!IsTagChar(text[0]), text[1..], after);
    }
  }

  // A literal that is not quiet gives the rewriter something to rename.
  lemma {:induction false} NoisyTree(e: Expr, edge: bool, after: string)
    requires !Quiet(e, edge, after)
    ensures Renamed(edge, Print(e) + after).Some?
  {
    hide Renamed, Calm, G.Doubled;
    match e
    case Str(_, _) => NoisyText(edge, Print(e), after);
    case Call(name, ws, inner) =>
      NoisyTree(inner, true, ")" + after);
      RenamedLater(edge, (name + ws) + "(", Print(inner) + (")" + after));
      CallTexts(name + ws, Print(inner), after, edge);
    case Beside(l, comma, r) =>
      Assoc(Print(l), Sep(comma) + Print(r), after);
      if !Quiet(l, edge, Sep(comma) + Print(r) + after) {
        NoisyTree(l, edge, Sep(comma) + Print(r) + after);
      } else {
        NoisyTree(r, EdgeAfter(edge, Print(l) + Sep(comma)), after);
        RenamedLater(edge, Print(l) + Sep(comma), Print(r) + after);
        Assoc(Sep(comma), Print(r), after);
        Assoc(Print(l), Sep(comma), Print(r) + after);
      }
  }

  lemma CallTexts(head: string, text: string, after: string, edge: bool)
    ensures (head + "(") + (text + (")" + after)) == (head + ("(" + (text + ")"))) + after
    ensures EdgeAfter(edge, head + "(")
  {
    CallParts(head, text, after);
    Assoc(head, "(", text + (")" + after));
  }

  // The rewriter renames exactly the scalar calls of a tree if and only if it finds none
  // inside a literal.
  lemma TranslatesExactly(e: Expr)
    requires Reads(e, true, "")
    ensures Translate(Print(e)) == Print(Rewritten(e)) <==> Quiet(e, true, "")
  {
    hide *;
    if Quiet(e, true, "") {
      TranslatesTree(e);
    } else {
      var x := Rewritten(e);
      QuietRewritten(e);
      NoisyTree(x, true, "");
      assert Print(x) + "" == Print(x);
      NothingLeft(Print(e));
    }
  }

  // A literal alone is left as it is exactly when no closed call with a comma of its own
  // starts inside it.
  lemma LiteralKeptExactly(q: char, body: string)
    requires IsQuote(q)
    ensures Translate(Print(Str(q, body))) == Print(Str(q, body)) <==> Calm(true, Print(Str(q, body)), "")
  {
    hide Translate, Calm, Print;
    TranslatesExactly(Str(q, body));
  }

  lemma {:induction false} NothingDoubled(body: string, q: char)
    requires q !in body
    ensures G.Doubled(body, q) == body
  {
    if body != "" { NothingDoubled(body[1..], q); }
  }

  // A literal that begins with the text of a scalar call is not left as it is.
  lemma CallInsideLiteral(q: char, e: Expr)
    requires IsQuote(q) && q !in Print(e) && Scalar(e) && Reads(e, true, [q])
    ensures Translate(Print(Str(q, Print(e)))) != Print(Str(q, Print(e)))
  {
    hide Silent, Scan, MatchHead, Opens, Translate, Rewritten, NewName;
    var text, group := Print(e), "(" + (Print(e.inner) + ")");
    NothingDoubled(text, q);
    HeadOfCall(e.name, e.ws, group, [q]);
    ScanGroup(e.inner, [q], 0, false);
    assert text + [q] == (e.name + e.ws) + group + [q];
    assert ScalarHead(true, text + [q]);
    var literal := Print(Str(q, text));
    assert literal + "" == literal && literal[1..] + "" == text + [q];
    assert !Calm(true, literal, "");
    LiteralKeptExactly(q, text);
  }

  lemma CallOfTwo(e: Expr)
    requires e == Call("MAX", "", Beside(Atom("a"), true, Atom("b")))
    ensures Print(e) == "MAX(a,b)" && Scalar(e) && Reads(e, true, "'")
  {
    hide Silent;
    var tail := ")" + "'";
    SilentNoM(true, "a", "," + "b" + tail);
    SilentNoM(true, "b", tail);
    assert "a" + "," == "a,";
  }

  // 'MAX(a,b)' is rewritten although it is a literal.
  lemma LiteralRewritten()
    ensures var e := Str('\'', "MAX(a,b)"); Reads(e, true, "") && Rewritten(e) == e
    ensures Translate("'MAX(a,b)'") != "'MAX(a,b)'"
  {
    hide Translate, Silent, G.Doubled, Scalar;
    var e := Call("MAX", "", Beside(Atom("a"), true, Atom("b")));
    CallOfTwo(e);
    CallInsideLiteral('\'', e) by { hide Reads, Print; }
    NothingDoubled("MAX(a,b)", '\'');
    assert ['\''] + ("MAX(a,b)" + ['\'']) == "'MAX(a,b)'";
  }
}
