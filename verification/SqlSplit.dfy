/** The statement splitter. */
module SqlSplit {
  import opened SqlText
  import opened SqlGrammar

  // Puts text in front of the first piece.
  function Glue(text: string, ps: seq<string>): (r: seq<string>)
    requires ps != []
    ensures |r| == |ps|
  {
    [text + ps[0]] + ps[1..]
  }

  // The stretches between top-level semicolons, untrimmed.
  function Pieces(s: string, m: Mode): (ps: seq<string>)
    requires ValidMode(m)
    ensures ps != []
    decreases |s|
  {
    if s == "" then [""]
    else if m.Top? && s[0] == ';' then [""] + Pieces(s[1..], Top)
    else
      var t := Turn(s, m, true);
      Glue(s[..t.width], Pieces(s[t.width..], t.next))
  }

  function Statements(ps: seq<string>): seq<string> {
    if ps == [] then []
    else (if Trim(ps[0]) != "" then [Trim(ps[0])] else []) + Statements(ps[1..])
  }

  function Split(script: string): seq<string> {
    Statements(Pieces(script, Top))
  }

  // The statements found once the rest of the script has been scanned.
  ghost function Finish(out: seq<string>, buf: string, rest: string, m: Mode): seq<string>
    requires ValidMode(m)
  {
    out + Statements(Glue(buf, Pieces(rest, m)))
  }

  method SplitSqlScript(script: string) returns (out: seq<string>)
    ensures out == Split(script)
  {
    var mode := Top;
    assert ValidMode(mode);
    hide *;
    out := [];
    var buf := "";
    var i := 0;
    FinishStart(script);
    assert script[i..] == script;
    while i < |script|
      invariant 0 <= i <= |script| && ValidMode(mode)
      invariant Finish(out, buf, script[i..], mode) == Split(script)
    {
      ghost var rest := script[i..];
      if mode == Top && script[i] == ';' {
        FinishSemicolon(out, buf, rest);
        var statement := Trim(buf);
        if statement != "" {
          out := out + [statement];
        }
        buf := "";
        i := i + 1;
        assert script[i..] == rest[1..];
      } else {
        FinishTurn(out, buf, rest, mode);
        var t := Turn(script[i..], mode, true);
        assert script[i..i + t.width] == rest[..t.width];
        buf := buf + script[i..i + t.width];
        mode := t.next;
        i := i + t.width;
        assert script[i..] == rest[t.width..];
      }
    }
    assert script[i..] == "";
    FinishEnd(out, buf, mode);
    var statement := Trim(buf);
    if statement != "" {
      out := out + [statement];
    }
  }

  lemma FinishStart(script: string)
    ensures Finish([], "", script, Top) == Split(script)
  {
    GlueNothing(Pieces(script, Top));
  }

  lemma FinishSemicolon(out: seq<string>, buf: string, rest: string)
    requires rest != "" && rest[0] == ';'
    ensures Finish(out, buf, rest, Top)
         == Finish(if Trim(buf) != "" then out + [Trim(buf)] else out, "", rest[1..], Top)
  {
    var ps := Pieces(rest[1..], Top);
    GlueNothing(ps);
    assert Glue(buf, [""] + ps)[1..] == ps && buf + "" == buf;
    Assoc(out, if Trim(buf) != "" then [Trim(buf)] else [], Statements(ps));
    assert out + [] == out;
  }

  lemma FinishTurn(out: seq<string>, buf: string, rest: string, m: Mode)
    requires rest != "" && ValidMode(m) && !(m.Top? && rest[0] == ';')
    ensures var t := Turn(rest, m, true);
            Finish(out, buf, rest, m) == Finish(out, buf + rest[..t.width], rest[t.width..], t.next)
  {
    var t := Turn(rest, m, true);
    GlueTwice(buf, rest[..t.width], Pieces(rest[t.width..], t.next));
  }

  lemma FinishEnd(out: seq<string>, buf: string, m: Mode)
    requires ValidMode(m)
    ensures Finish(out, buf, "", m) == if Trim(buf) != "" then out + [Trim(buf)] else out
  {
    assert buf + "" == buf;
    assert Pieces("", m) == [""] && Glue(buf, [""]) == [buf];
    assert [buf][1..] == [];
    var last := if Trim(buf) != "" then [Trim(buf)] else [];
    assert Statements([buf]) == last + [] == last;
    assert out + [] == out;
  }

  lemma GlueNothing(ps: seq<string>)
    requires ps != []
    ensures Glue("", ps) == ps
  {
    assert "" + ps[0] == ps[0];
  }

  lemma GlueAppend(text: string, ps: seq<string>, qs: seq<string>)
    requires ps != []
    ensures Glue(text, ps + qs) == Glue(text, ps) + qs
  {
    assert (ps + qs)[1..] == ps[1..] + qs;
  }

  lemma GlueTwice(a: string, b: string, ps: seq<string>)
    requires ps != []
    ensures Glue(a, Glue(b, ps)) == Glue(a + b, ps)
  {
    assert a + (b + ps[0]) == (a + b) + ps[0];
  }

  // ---------------------------------------------------------------- nothing is lost

  lemma JoinGlue(text: string, ps: seq<string>)
    requires ps != []
    ensures Join(Glue(text, ps), ";") == text + Join(ps, ";")
  {
    if |ps| > 1 {
      Assoc(text, ps[0], ";");
      Assoc(text, ps[0] + ";", Join(ps[1..], ";"));
    }
  }

  // The untrimmed pieces joined by semicolons are the script.
  lemma {:induction false} PiecesRebuild(s: string, m: Mode)
    requires ValidMode(m)
    ensures Join(Pieces(s, m), ";") == s
    decreases |s|
  {
    hide Turn;
    if s == "" {
    } else if m.Top? && s[0] == ';' {
      PiecesRebuild(s[1..], Top);
      assert Pieces(s, m)[1..] == Pieces(s[1..], Top);
      assert s == "" + ";" + s[1..];
    } else {
      var t := Turn(s, m, true);
      PiecesRebuild(s[t.width..], t.next);
      JoinGlue(s[..t.width], Pieces(s[t.width..], t.next));
      assert s == s[..t.width] + s[t.width..];
    }
  }

  // ---------------------------------------------------------------- locality

  // No token of a statement reaches past a semicolon that follows it.
  lemma TurnLocal(a: string, b: string, m: Mode)
    requires a != "" && ValidMode(m)
    ensures Turn(a + (";" + b), m, true) == Turn(a, m, true)
  {
    var s := a + (";" + b);
    assert s[1] == if |a| > 1 then a[1] else ';';
    match m
    case Dollar(tag) => PrefixLocal(a, b, tag);
    case Top =>
      OpenTagLocal(a, b);
      assert OpenTag(a) <= |a| && s[..OpenTag(a)] == a[..OpenTag(a)];
    case _ =>
  }

  lemma OpenTagLocal(a: string, b: string)
    requires a != ""
    ensures OpenTag(a + (";" + b)) == OpenTag(a)
  {
    var s := a + (";" + b);
    assert s[1..] == a[1..] + (";" + b);
    TagRunLocal(a[1..], b);
    var e := 1 + TagRun(a[1..]);
    assert s[e] == if e < |a| then a[e] else ';';
  }

  lemma {:induction false} TagRunLocal(a: string, b: string)
    ensures TagRun(a + (";" + b)) == TagRun(a)
  {
    var s := a + (";" + b);
    if a != "" {
      assert s[1..] == a[1..] + (";" + b);
      TagRunLocal(a[1..], b);
    }
  }

  lemma PrefixLocal(a: string, b: string, tag: string)
    requires ValidTag(tag)
    ensures tag <= a + (";" + b) <==> tag <= a
  {
    var s := a + (";" + b);
    if |tag| <= |a| {
      assert s[..|tag|] == a[..|tag|];
    } else {
      assert s[|a|] == ';' && tag[|a|] != ';';
    }
  }

  // A statement that ends at top level is split as if what follows were not there.
  lemma {:induction false} PiecesAppend(a: string, b: string, m: Mode)
    requires ValidMode(m) && EndMode(a, m, true) == Top
    ensures Pieces(a + (";" + b), m) == Pieces(a, m) + Pieces(b, Top)
    decreases |a|
  {
    var s := a + (";" + b);
    if a == "" {
      assert s == ";" + b && s[1..] == b;
    } else if m.Top? && a[0] == ';' {
      assert s[1..] == a[1..] + (";" + b);
      assert !IsQuote(a[0]) && OpenTag(a) == 0 && Turn(a, m, true) == Token(1, Top);
      PiecesAppend(a[1..], b, Top);
      Assoc([""], Pieces(a[1..], Top), Pieces(b, Top));
    } else {
      TurnLocal(a, b, m);
      var t := Turn(a, m, true);
      assert s[..t.width] == a[..t.width] && s[t.width..] == a[t.width..] + (";" + b);
      PiecesAppend(a[t.width..], b, t.next);
      GlueAppend(a[..t.width], Pieces(a[t.width..], t.next), Pieces(b, Top));
    }
  }

  lemma WholeFromTurn(token: string, q: string, m: Mode)
    requires ValidMode(m) && token != "" && !(m.Top? && token[0] == ';')
    requires Turn(token + q, m, true).width == |token|
    requires var next := Turn(token + q, m, true).next;
             |Pieces(q, next)| == 1 && EndMode(q, next, true) == Top
    ensures |Pieces(token + q, m)| == 1 && EndMode(token + q, m, true) == Top
  {
    assert (token + q)[|token|..] == q;
  }

  // What stands before the first top-level semicolon is itself whole and ends at top level.
  lemma {:induction false} FirstPiece(s: string, m: Mode) returns (p: string, rest: string)
    requires ValidMode(m) && |Pieces(s, m)| > 1
    ensures s == p + (";" + rest) && Pieces(s, m) == [p] + Pieces(rest, Top)
    ensures |Pieces(p, m)| == 1 && EndMode(p, m, true) == Top
    decreases |s|
  {
    hide Turn;
    if m.Top? && s[0] == ';' {
      p, rest := "", s[1..];
    } else {
      var t := Turn(s, m, true);
      var token, tail := s[..t.width], s[t.width..];
      var q;
      q, rest := FirstPiece(tail, t.next);
      p := token + q;
      assert Glue(token, [q] + Pieces(rest, Top)) == [p] + Pieces(rest, Top);
      Assoc(token, q, ";" + rest);
      assert s == token + tail;
      TurnLocal(p, rest, m);
      WholeFromTurn(token, q, m);
    }
  }

  // ---------------------------------------------------------------- round trip

  // No top-level semicolon.
  predicate Whole(p: string) {
    |Pieces(p, Top)| == 1
  }

  predicate EndsAtTop(p: string) {
    EndMode(p, Top, true) == Top
  }

  predicate Separable(ps: seq<string>) {
    && ps != []
    && (forall k :: 0 <= k < |ps| ==> Whole(ps[k]))
    && (forall k :: 0 <= k < |ps| - 1 ==> EndsAtTop(ps[k]))
  }

  lemma {:induction false} PiecesSeparable(s: string)
    ensures Separable(Pieces(s, Top))
    decreases |s|
  {
    var ps := Pieces(s, Top);
    PiecesRebuild(s, Top);
    if |ps| > 1 {
      var p, rest := FirstPiece(s, Top);
      PiecesSeparable(rest);
      forall k | 0 <= k < |ps|
        ensures Whole(ps[k]) && (k < |ps| - 1 ==> EndsAtTop(ps[k]))
      {
        if k > 0 { assert ps[k] == Pieces(rest, Top)[k - 1]; }
      }
    }
  }

  // Splitting the join of separable stretches gives them back.
  lemma {:induction false} PiecesOfJoin(ps: seq<string>)
    requires Separable(ps)
    ensures Pieces(Join(ps, ";"), Top) == ps
  {
    assert Whole(ps[0]);
    PiecesRebuild(ps[0], Top);
    assert Pieces(ps[0], Top) == [ps[0]];
    if |ps| > 1 {
      assert EndsAtTop(ps[0]);
      var rest := ps[1..];
      forall k | 0 <= k < |rest| ensures Whole(rest[k]) && (k < |rest| - 1 ==> EndsAtTop(rest[k])) {
        assert rest[k] == ps[k + 1];
      }
      PiecesOfJoin(rest);
      PiecesAppend(ps[0], Join(rest, ";"), Top);
      Assoc(ps[0], ";", Join(rest, ";"));
    }
  }

  // The pieces are the one separable list whose join is the script.
  lemma PiecesUnique(script: string, ps: seq<string>)
    ensures ps == Pieces(script, Top) <==> Separable(ps) && Join(ps, ";") == script
  {
    if Separable(ps) && Join(ps, ";") == script {
      PiecesOfJoin(ps);
    }
    if ps == Pieces(script, Top) {
      PiecesSeparable(script);
      PiecesRebuild(script, Top);
    }
  }

  // Splitting the join of trimmed, non-empty statements gives them back.
  lemma SplitOfJoin(statements: seq<string>)
    requires Separable(statements)
    requires forall k :: 0 <= k < |statements| ==> Trimmed(statements[k])
    ensures Split(Join(statements, ";")) == statements
  {
    PiecesOfJoin(statements);
    StatementsOfTrimmed(statements);
  }

  lemma {:induction false} StatementsOfTrimmed(ps: seq<string>)
    requires forall k :: 0 <= k < |ps| ==> Trimmed(ps[k])
    ensures Statements(ps) == ps
  {
    if ps != [] {
      assert Trimmed(ps[0]) && Trim(ps[0]) == ps[0];
      StatementsOfTrimmed(ps[1..]);
    }
  }

  // ---------------------------------------------------------------- against the grammar

  // A list of segments cut at its plain semicolons.
  function Stretches(gs: seq<Segment>): (ps: seq<string>)
    requires forall g <- gs :: Lexical(g)
    ensures ps != []
  {
    if gs == [] then [""]
    else if gs[0] == Plain(';') then [""] + Stretches(gs[1..])
    else Glue(Written(gs[0]), Stretches(gs[1..]))
  }

  lemma PiecesTurn(token: string, rest: string, m: Mode)
    requires ValidMode(m) && token != "" && !(m.Top? && token[0] == ';')
    requires Turn(token + rest, m, true).width == |token|
    ensures Pieces(token + rest, m) == Glue(token, Pieces(rest, Turn(token + rest, m, true).next))
  {
    Cut(token, rest);
  }

  // Inside a literal, a comment or a dollar-quoted string nothing is cut.
  lemma {:induction false} PiecesClose(a: string, b: string, m: Mode)
    requires ValidMode(m) && Closes(a + b, |a|, m, true)
    ensures Pieces(a + b, m) == Glue(a, Pieces(b, Top))
    decreases |a|
  {
    if m.Top? {
      assert a + b == b;
      GlueNothing(Pieces(b, Top));
    } else {
      var t := Turn(a + b, m, true);
      var token, rest := a[..t.width], a[t.width..];
      TokenAndRest(token, rest, b);
      assert a == token + rest;
      PiecesTurn(token, rest + b, m);
      PiecesClose(rest, b, t.next);
      GlueTwice(token, rest, Pieces(b, Top));
    }
  }

  lemma TokenAndRest(token: string, rest: string, b: string)
    ensures (token + rest) + b == token + (rest + b)
    ensures ((token + rest) + b)[|token|..] == rest + b
  {
    Assoc(token, rest, b);
    Cut(token, rest + b);
  }

  // A script is cut at exactly the semicolons that are segments of their own.
  lemma {:induction false} PiecesOfSegments(gs: seq<Segment>)
    requires WellFormed(gs, true)
    ensures Pieces(Print(gs), Top) == Stretches(gs)
  {
    if gs != [] {
      var g, after := gs[0], Print(gs[1..]);
      PiecesOfSegments(gs[1..]);
      Cut(Written(g), after);
      if g != Plain(';') {
        SegmentIsUnit(g, after, true);
        PiecesOfUnit(g, after);
      }
    }
  }

  lemma PiecesOfUnit(g: Segment, after: string)
    requires Lexical(g) && Unit(g, after, true) && g != Plain(';')
    ensures Pieces(Written(g) + after, Top) == Glue(Written(g), Pieces(after, Top))
  {
    hide Turn;
    var a := Written(g);
    var t := Turn(a + after, Top, true);
    var token, rest := a[..t.width], a[t.width..];
    TokenAndRest(token, rest, after);
    assert a == token + rest;
    PiecesTurn(token, rest + after, Top);
    PiecesClose(rest, after, t.next);
    GlueTwice(token, rest, Pieces(after, Top));
  }
}
