/** The lexical grammar the scanners are meant to recognise, stated by printing instead of scanning. */
module SqlGrammar {
  import opened SqlText

  datatype Segment =
    | Plain(c: char)
    | Literal(quote: char, body: string)
    | LineNote(body: string)
    | BlockNote(body: string)
    | DollarQuoted(tag: string, body: string)

  // A quote inside a quoted literal is written twice.
  function Doubled(body: string, q: char): string {
    if body == "" then "" else (if body[0] == q then [q, q] else [body[0]]) + Doubled(body[1..], q)
  }

  // The parts of a segment that do not depend on what follows it.
  predicate Lexical(g: Segment) {
    match g
    case Plain(c) => !IsQuote(c)
    case Literal(q, body) => IsQuote(q)
    case LineNote(body) => '\n' !in body
    case BlockNote(body) => NoBlockEnd(body)
    case DollarQuoted(tag, body) => tag != "" && OpenTag(tag) == |tag| && NoTagIn(body, tag)
  }

  function Written(g: Segment): (text: string)
    requires Lexical(g)
    ensures text != ""
  {
    match g
    case Plain(c) => [c]
    case Literal(q, body) => [q] + (Doubled(body, q) + [q])
    case LineNote(body) => "--" + (body + "\n")
    case BlockNote(body) => "/*" + (body + "*/")
    case DollarQuoted(tag, body) => tag + (body + tag)
  }

  function Print(gs: seq<Segment>): string
    requires forall g <- gs :: Lexical(g)
  {
    if gs == [] then "" else Written(gs[0]) + Print(gs[1..])
  }

  // What follows g does not change it into another segment.
  predicate Fits(g: Segment, after: string, dollars: bool) {
    && Lexical(g)
    && match g
       case Plain(c) =>
         && !(c == '-' && after != "" && after[0] == '-')
         && !(c == '/' && after != "" && after[0] == '*')
         && (dollars ==> OpenTag([c] + after) == 0)
       case Literal(q, body) => !(after != "" && after[0] == q)
       case DollarQuoted(tag, body) => dollars
       case _ => true
  }

  predicate WellFormed(gs: seq<Segment>, dollars: bool)
    ensures WellFormed(gs, dollars) ==> forall g <- gs :: Lexical(g)
  {
    gs != [] ==>
      && WellFormed(gs[1..], dollars)
      && Fits(gs[0], Print(gs[1..]), dollars)
  }

  // ---------------------------------------------------------------- back to top level

  // s[..n] is scanned from inside m and n is where top level is first reached.
  predicate Closes(s: string, n: nat, m: Mode, dollars: bool)
    requires ValidMode(m)
    decreases |s|
  {
    if m.Top? then n == 0
    else if s == "" then false
    else
      var t := Turn(s, m, dollars);
      t.width <= n && Closes(s[t.width..], n - t.width, t.next, dollars)
  }

  lemma ClosesStep(w: string, rest: string, n: nat, m: Mode, dollars: bool)
    requires ValidMode(m) && !m.Top? && w != ""
    requires Turn(w + rest, m, dollars).width == |w|
    requires Closes(rest, n, Turn(w + rest, m, dollars).next, dollars)
    ensures Closes(w + rest, |w| + n, m, dollars)
  {
    Cut(w, rest);
  }

  lemma Peel(w: string, a: string, b: string, y: string)
    ensures (w + a + b) + y == w + ((a + b) + y)
  {
  }

  lemma QuotedTurn(c: char, q: char, rest: string, dollars: bool)
    requires IsQuote(q)
    ensures var w := if c == q then [q, q] else [c];
            Turn(w + rest, Quoted(q), dollars) == Token(|w|, Quoted(q))
    ensures !(rest != "" && rest[0] == q) ==> Turn([q] + rest, Quoted(q), dollars) == Token(1, Top)
  {
  }

  lemma {:induction false} LiteralCloses(body: string, q: char, y: string, dollars: bool)
    requires IsQuote(q) && !(y != "" && y[0] == q)
    ensures Closes((Doubled(body, q) + [q]) + y, |Doubled(body, q)| + 1, Quoted(q), dollars)
  {
    hide Turn;
    if body == "" {
      assert Doubled(body, q) + [q] == [q];
      QuotedTurn(q, q, y, dollars);
      ClosesStep([q], y, 0, Quoted(q), dollars);
    } else {
      var w := if body[0] == q then [q, q] else [body[0]];
      var inner := Doubled(body[1..], q);
      LiteralCloses(body[1..], q, y, dollars);
      Peel(w, inner, [q], y);
      QuotedTurn(body[0], q, (inner + [q]) + y, dollars);
      ClosesStep(w, (inner + [q]) + y, |inner| + 1, Quoted(q), dollars);
    }
  }

  lemma {:induction false} LineCloses(body: string, y: string, dollars: bool)
    requires '\n' !in body
    ensures Closes((body + "\n") + y, |body| + 1, LineComment, dollars)
  {
    if body == "" {
      assert body + "\n" == "\n";
      ClosesStep("\n", y, 0, LineComment, dollars);
    } else {
      LineCloses(body[1..], y, dollars);
      assert [body[0]] + body[1..] == body;
      Peel([body[0]], body[1..], "\n", y);
      ClosesStep([body[0]], (body[1..] + "\n") + y, |body|, LineComment, dollars);
    }
  }

  predicate NoBlockEnd(body: string) {
    forall k :: 0 <= k < |body| - 1 ==> !(body[k] == '*' && body[k + 1] == '/')
  }

  lemma {:induction false} BlockCloses(body: string, y: string, dollars: bool)
    requires NoBlockEnd(body)
    ensures Closes((body + "*/") + y, |body| + 2, BlockComment, dollars)
  {
    if body == "" {
      assert body + "*/" == "*/";
      ClosesStep("*/", y, 0, BlockComment, dollars);
    } else {
      var rest := body[1..];
      assert NoBlockEnd(rest) by {
        forall k | 0 <= k < |rest| - 1 ensures !(rest[k] == '*' && rest[k + 1] == '/') {
          assert rest[k] == body[k + 1] && rest[k + 1] == body[k + 2];
        }
      }
      BlockCloses(rest, y, dollars);
      assert [body[0]] + rest == body;
      Peel([body[0]], rest, "*/", y);
      var s := [body[0]] + ((rest + "*/") + y);
      assert s[1] == if rest != "" then rest[0] else '*';
      assert rest != "" ==> !(body[0] == '*' && body[0 + 1] == '/');
      ClosesStep([body[0]], (rest + "*/") + y, |body| + 1, BlockComment, dollars);
    }
  }

  predicate NoTagIn(body: string, tag: string) {
    forall k :: 0 <= k < |body| ==> !(tag <= (body + tag)[k..])
  }

  lemma {:induction false} DollarCloses(tag: string, body: string, y: string, dollars: bool)
    requires ValidTag(tag) && NoTagIn(body, tag)
    ensures Closes((body + tag) + y, |body| + |tag|, Dollar(tag), dollars)
  {
    if body == "" {
      assert body + tag == tag;
      ClosesStep(tag, y, 0, Dollar(tag), dollars);
    } else {
      var rest := body[1..];
      assert NoTagIn(rest, tag) by {
        forall k | 0 <= k < |rest| ensures !(tag <= (rest + tag)[k..]) {
          assert (rest + tag)[k..] == (body + tag)[k + 1..];
        }
      }
      DollarCloses(tag, rest, y, dollars);
      assert [body[0]] + rest == body;
      Peel([body[0]], rest, tag, y);
      NoTagAtHead(tag, body, y);
      ClosesStep([body[0]], (rest + tag) + y, |body| - 1 + |tag|, Dollar(tag), dollars);
    }
  }

  lemma NoTagAtHead(tag: string, body: string, y: string)
    requires body != "" && NoTagIn(body, tag)
    ensures !(tag <= (body + tag) + y)
  {
    assert (body + tag)[0..] == body + tag;
    assert ((body + tag) + y)[..|tag|] == (body + tag)[..|tag|];
  }

  // ---------------------------------------------------------------- a segment is one unit

  // The first turn on a segment other than a plain character leaves top level, and the
  // scan is back at top level exactly where the segment ends.
  predicate Unit(g: Segment, after: string, dollars: bool)
    requires Lexical(g)
  {
    var s := Written(g) + after;
    var t := Turn(s, Top, dollars);
    if g.Plain? then t == Token(1, Top)
    else
      && t.width <= |Written(g)| && !t.next.Top?
      && Closes(s[t.width..], |Written(g)| - t.width, t.next, dollars)
  }

  lemma UnitFrom(g: Segment, open: string, inner: string, after: string, next: Mode, dollars: bool)
    requires Lexical(g) && !g.Plain? && Written(g) == open + inner && open != ""
    requires ValidMode(next) && !next.Top?
    requires Turn(open + (inner + after), Top, dollars) == Token(|open|, next)
    requires Closes(inner + after, |inner|, next, dollars)
    ensures Unit(g, after, dollars)
  {
    Assoc(open, inner, after);
    Cut(open, inner + after);
  }

  lemma {:induction false} TagRunClosed(run: string, y: string)
    requires run != "" && TagRun(run) == |run| - 1 && run[|run| - 1] == '$'
    ensures TagRun(run + y) == |run| - 1
  {
    if |run| > 1 {
      assert (run + y)[1..] == run[1..] + y;
      TagRunClosed(run[1..], y);
    }
  }

  lemma TagOpens(tag: string, rest: string)
    requires tag != "" && OpenTag(tag) == |tag|
    ensures ValidTag(tag) && Turn(tag + rest, Top, true) == Token(|tag|, Dollar(tag))
  {
    OpenTagValid(tag);
    assert tag[..|tag|] == tag;
    assert tag[1..][|tag| - 2] == '$';
    TagRunClosed(tag[1..], rest);
    assert (tag + rest)[1..] == tag[1..] + rest;
    assert (tag + rest)[|tag| - 1] == tag[|tag| - 1];
    Cut(tag, rest);
  }

  lemma PlainIsUnit(c: char, after: string, dollars: bool)
    requires Fits(Plain(c), after, dollars)
    ensures Unit(Plain(c), after, dollars)
  {
    Cut([c], after);
  }

  lemma OpensAtTop(q: char, rest: string, dollars: bool)
    requires IsQuote(q)
    ensures Turn([q] + rest, Top, dollars) == Token(1, Quoted(q))
    ensures Turn("--" + rest, Top, dollars) == Token(2, LineComment)
    ensures Turn("/*" + rest, Top, dollars) == Token(2, BlockComment)
  {
  }

  lemma SegmentIsUnit(g: Segment, after: string, dollars: bool)
    requires Fits(g, after, dollars)
    ensures Unit(g, after, dollars)
  {
    hide Turn, Closes, OpenTag, Doubled, NoTagIn, NoBlockEnd;
    match g
    case Plain(c) => PlainIsUnit(c, after, dollars);
    case Literal(q, body) =>
      LiteralCloses(body, q, after, dollars);
      OpensAtTop(q, (Doubled(body, q) + [q]) + after, dollars);
      UnitFrom(g, [q], Doubled(body, q) + [q], after, Quoted(q), dollars);
    case LineNote(body) =>
      LineCloses(body, after, dollars);
      OpensAtTop('"', (body + "\n") + after, dollars);
      UnitFrom(g, "--", body + "\n", after, LineComment, dollars);
    case BlockNote(body) =>
      BlockCloses(body, after, dollars);
      OpensAtTop('"', (body + "*/") + after, dollars);
      UnitFrom(g, "/*", body + "*/", after, BlockComment, dollars);
    case DollarQuoted(tag, body) =>
      TagOpens(tag, (body + tag) + after);
      DollarCloses(tag, body, after, dollars);
      UnitFrom(g, tag, body + tag, after, Dollar(tag), dollars);
  }
}
