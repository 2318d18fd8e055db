/** SQLite placeholders to psycopg's, and the escaping of every other percent sign. */
module SqlPlaceholders {
  import opened Options
  import opened SqlText
  import opened SqlGrammar

  // What the translated text must mean to the adapter.
  datatype Piece =
    | Lit(c: char)
    | Positional(format: char)
    | Named(name: string)
    | Broken

  predicate IsMark(s: string, m: Mode) {
    m.Top? && s != "" && s[0] == '?'
  }

  function Qmarks(s: string, m: Mode): string
    requires ValidMode(m)
    decreases |s|
  {
    if s == "" then ""
    else
      var t := Turn(s, m, false);
      (if IsMark(s, m) then "%s" else s[..t.width]) + Qmarks(s[t.width..], t.next)
  }

  // The whole output once the rest of the statement has been translated.
  ghost function Marking(out: string, rest: string, m: Mode): string
    requires ValidMode(m)
  {
    out + Qmarks(rest, m)
  }

  lemma MarkingTurn(out: string, sql: string, i: nat, m: Mode)
    requires i < |sql| && ValidMode(m)
    ensures var t := Turn(sql[i..], m, false);
            var text := if m == Top && sql[i] == '?' then "%s" else sql[i..i + t.width];
            Marking(out, sql[i..], m) == Marking(out + text, sql[i + t.width..], t.next)
  {
    var rest := sql[i..];
    var t := Turn(rest, m, false);
    assert sql[i + t.width..] == rest[t.width..] && sql[i..i + t.width] == rest[..t.width];
    Assoc(out, if IsMark(rest, m) then "%s" else rest[..t.width], Qmarks(rest[t.width..], t.next));
  }

  lemma MarkingEnds(out: string, sql: string)
    ensures ValidMode(Top) && Marking("", sql[0..], Top) == Qmarks(sql, Top)
    ensures forall m | ValidMode(m) :: Marking(out, sql[|sql|..], m) == out
  {
    assert sql[0..] == sql && sql[|sql|..] == "";
  }

  method QmarksToPsycopg(sql: string) returns (out: string)
    ensures out == Qmarks(sql, Top)
  {
    hide *;
    out := "";
    var mode := Top;
    var i := 0;
    MarkingEnds(out, sql);
    while i < |sql|
      invariant 0 <= i <= |sql| && ValidMode(mode)
      invariant Marking(out, sql[i..], mode) == Qmarks(sql, Top)
    {
      MarkingTurn(out, sql, i, mode);
      var t := Turn(sql[i..], mode, false);
      out := out + if mode == Top && sql[i] == '?' then "%s" else sql[i..i + t.width];
      mode := t.next;
      i := i + t.width;
    }
    MarkingEnds(out, sql);
  }

  // ---------------------------------------------------------------- percent signs

  predicate IsFormat(c: char) {
    c == 's' || c == 'b' || c == 't'
  }

  // [A-Za-z_][A-Za-z0-9_]*, the whole of it
  predicate IsName(s: string) {
    s != "" && !('0' <= s[0] <= '9') && forall k :: 0 <= k < |s| ==> IsTagChar(s[k])
  }

  // str.find(")s"): the length of what stands before the first ")s"
  function BeforeClose(s: string): (n: Option<nat>)
    ensures n.Some? ==> n.value + 2 <= |s| && s[n.value] == ')' && s[n.value + 1] == 's'
    ensures n.Some? ==> forall k :: 0 <= k < n.value ==> !(s[k] == ')' && s[k + 1] == 's')
    ensures n.None? ==> forall k :: 0 <= k < |s| - 1 ==> !(s[k] == ')' && s[k + 1] == 's')
  {
    if |s| < 2 then None
    else if s[0] == ')' && s[1] == 's' then Some(0)
    else
      match BeforeClose(s[1..])
      case None => None
      case Some(n) => Some(n + 1)
  }

  // The length of the name if the text after a percent sign reads "(name)s", else 0.
  function NameAhead(s: string): (n: nat)
    ensures n > 0 ==> n + 3 <= |s| && IsName(s[1..n + 1])
  {
    if s == "" || s[0] != '(' then 0
    else
      match BeforeClose(s[1..])
      case None => 0
      case Some(n) => if IsName(s[1..][..n]) then (assert s[1..n + 1] == s[1..][..n]; n) else 0
  }

  datatype Chunk = Chunk(text: string, width: nat)

  // One iteration of the escaper: what it writes and how far it moves.
  function EscapeTurn(s: string): (c: Chunk)
    requires s != ""
    ensures 1 <= c.width <= |s|
  {
    if s[0] != '%' then Chunk([s[0]], 1)
    else
      var n := NameAhead(s[1..]);
      if n > 0 then Chunk(s[..n + 4], n + 4)
      else if |s| > 1 && (IsFormat(s[1]) || s[1] == '%') then Chunk(s[..2], 2)
      else Chunk("%%", 1)
  }

  function EscapePercent(s: string): string
    decreases |s|
  {
    if s == "" then "" else EscapeTurn(s).text + EscapePercent(s[EscapeTurn(s).width..])
  }

  // The whole output once the rest of the text has been escaped.
  ghost function Escaping(out: string, rest: string): string {
    out + EscapePercent(rest)
  }

  lemma EscapingTurn(out: string, sql: string, i: nat)
    requires i < |sql|
    ensures var c := EscapeTurn(sql[i..]);
            Escaping(out, sql[i..]) == Escaping(out + c.text, sql[i + c.width..])
  {
    var rest := sql[i..];
    var c := EscapeTurn(rest);
    assert sql[i + c.width..] == rest[c.width..];
    Assoc(out, c.text, EscapePercent(rest[c.width..]));
  }

  lemma EscapingEnds(out: string, sql: string)
    ensures Escaping("", sql[0..]) == EscapePercent(sql)
    ensures Escaping(out, sql[|sql|..]) == out
  {
    assert sql[0..] == sql && sql[|sql|..] == "";
  }

  method EscapePsycopgPercent(sql: string) returns (out: string)
    ensures out == EscapePercent(sql)
  {
    hide *;
    out := "";
    var i := 0;
    EscapingEnds(out, sql);
    while i < |sql|
      invariant 0 <= i <= |sql|
      invariant Escaping(out, sql[i..]) == EscapePercent(sql)
    {
      EscapingTurn(out, sql, i);
      var c := EscapeTurn(sql[i..]);
      out := out + c.text;
      i := i + c.width;
    }
    EscapingEnds(out, sql);
  }

  // How the adapter reads a query: each percent sign starts a token.
  function Read(s: string): seq<Piece>
    decreases |s|
  {
    if s == "" then []
    else if s[0] != '%' then [Lit(s[0])] + Read(s[1..])
    else if |s| == 1 then [Broken]
    else if s[1] == '%' then [Lit('%')] + Read(s[2..])
    else if IsFormat(s[1]) then [Positional(s[1])] + Read(s[2..])
    else
      var n := NameAhead(s[1..]);
      if n > 0 then [Named(s[2..n + 2])] + Read(s[n + 4..]) else [Broken] + Read(s[1..])
  }

  // ---------------------------------------------------------------- reading what was escaped

  predicate Proper(p: Piece) {
    match p
    case Lit(c) => true
    case Positional(f) => IsFormat(f)
    case Named(name) => IsName(name)
    case Broken => false
  }

  function Spelled(p: Piece): string {
    match p
    case Lit(c) => if c == '%' then "%%" else [c]
    case Positional(f) => ['%', f]
    case Named(name) => "%(" + name + ")s"
    case Broken => "%"
  }

  lemma ReadStep(p: Piece, rest: string)
    requires Proper(p)
    ensures Read(Spelled(p) + rest) == [p] + Read(rest)
    ensures EscapePercent(Spelled(p) + rest) == Spelled(p) + EscapePercent(rest)
  {
    hide NameAhead, IsName;
    match p
    case Lit(c) => ReadLit(c, rest);
    case Positional(f) => ReadPositional(f, rest);
    case Named(name) => ReadNamed(name, rest);
    case Broken =>
  }

  lemma NoNameAt(s: string)
    requires s != "" && s[0] != '('
    ensures NameAhead(s) == 0
  {
  }

  lemma ReadLit(c: char, rest: string)
    ensures var text := Spelled(Lit(c));
            && Read(text + rest) == [Lit(c)] + Read(rest)
            && EscapePercent(text + rest) == text + EscapePercent(rest)
  {
    hide NameAhead;
    Cut(Spelled(Lit(c)), rest);
    if c == '%' {
      Cut("%", "%" + rest);
      assert "%%" + rest == "%" + ("%" + rest);
      NoNameAt("%" + rest);
    }
  }

  lemma ReadPositional(f: char, rest: string)
    requires IsFormat(f)
    ensures var text := Spelled(Positional(f));
            && Read(text + rest) == [Positional(f)] + Read(rest)
            && EscapePercent(text + rest) == text + EscapePercent(rest)
  {
    hide NameAhead;
    Cut(['%', f], rest);
    Cut("%", [f] + rest);
    assert ['%', f] + rest == "%" + ([f] + rest);
    NoNameAt([f] + rest);
  }

  lemma ReadNamed(name: string, rest: string)
    requires IsName(name)
    ensures var text := Spelled(Named(name));
            && Read(text + rest) == [Named(name)] + Read(rest)
            && EscapePercent(text + rest) == text + EscapePercent(rest)
  {
    hide NameAhead, IsName, EscapePercent, Read;
    var text := "%(" + name + ")s";
    var s := text + rest;
    NameFound(name, rest);
    assert s[1..] == "(" + name + ")s" + rest;
    assert s[2..|name| + 2] == name;
    Cut(text, rest);
    HeadNamed(s, |name|);
  }

  lemma HeadNamed(s: string, n: nat)
    requires |s| > 1 && s[0] == '%' && s[1] == '(' && n > 0 && NameAhead(s[1..]) == n
    ensures n + 4 <= |s|
    ensures Read(s) == [Named(s[2..n + 2])] + Read(s[n + 4..])
    ensures EscapePercent(s) == s[..n + 4] + EscapePercent(s[n + 4..])
  {
    hide NameAhead, IsName;
  }

  lemma NameFound(name: string, rest: string)
    requires IsName(name)
    ensures NameAhead("(" + name + ")s" + rest) == |name| > 0
  {
    var s := "(" + name + ")s" + rest;
    assert s[1..] == name + ")s" + rest;
    CloseFound(name, rest);
    assert s[1..][..|name|] == name;
  }

  lemma {:induction false} CloseFound(run: string, rest: string)
    requires forall k :: 0 <= k < |run| ==> IsTagChar(run[k])
    ensures BeforeClose(run + ")s" + rest) == Some(|run|)
  {
    var s := run + ")s" + rest;
    if run != "" {
      assert s[0] == run[0] && s[1..] == run[1..] + ")s" + rest;
      CloseFound(run[1..], rest);
    }
  }

  // The token that the escaper writes for the head of a text.
  lemma Escaped(s: string) returns (p: Piece)
    requires s != ""
    ensures Proper(p) && EscapeTurn(s).text == Spelled(p)
  {
    if s[0] != '%' {
      p := Lit(s[0]);
    } else {
      var n := NameAhead(s[1..]);
      if n > 0 {
        p := Named(s[2..n + 2]);
        assert s[1..][1..n + 1] == s[2..n + 2];
        assert s[..n + 4] == "%(" + s[2..n + 2] + ")s";
      } else if |s| > 1 && IsFormat(s[1]) {
        p := Positional(s[1]);
      } else {
        p := Lit('%');
      }
    }
  }

  predicate Complete(ps: seq<Piece>) {
    forall p <- ps :: !p.Broken?
  }

  // Every percent sign of an escaped text starts a complete token, so escaping again
  // changes nothing.
  lemma {:induction false} EscapedIsComplete(s: string)
    ensures Complete(Read(EscapePercent(s)))
    ensures EscapePercent(EscapePercent(s)) == EscapePercent(s)
    decreases |s|
  {
    if s != "" {
      var p := Escaped(s);
      var rest := s[EscapeTurn(s).width..];
      EscapedIsComplete(rest);
      ReadStep(p, EscapePercent(rest));
    }
  }

  // ---------------------------------------------------------------- what it means

  function Lits(s: string): seq<Piece> {
    if s == "" then [] else [Lit(s[0])] + Lits(s[1..])
  }

  // The meaning the caller intends: top-level question marks are parameters, every other
  // character stands for itself.
  function Intended(s: string, m: Mode): seq<Piece>
    requires ValidMode(m)
    decreases |s|
  {
    if s == "" then []
    else
      var t := Turn(s, m, false);
      (if IsMark(s, m) then [Positional('s')] else Lits(s[..t.width])) + Intended(s[t.width..], t.next)
  }

  // What follows a percent sign would be taken as one token with it.
  predicate Clash(after: string, m: Mode) {
    && after != ""
    && (IsFormat(after[0]) || after[0] == '%' || IsMark(after, m) || NameAhead(after) > 0)
  }

  predicate NoClash(s: string, m: Mode)
    requires ValidMode(m)
    decreases |s|
  {
    s != "" ==>
      var t := Turn(s, m, false);
      && NoClash(s[t.width..], t.next)
      && !(s[0] == '%' && Clash(s[1..], m))
  }

  // Literals weigh 2 and placeholders 3, so each misreading loses weight.
  function Weight(ps: seq<Piece>): nat {
    if ps == [] then 0 else (if ps[0].Lit? then 2 else 3) + Weight(ps[1..])
  }

  lemma {:induction false} WeightAdds(a: seq<Piece>, b: seq<Piece>)
    ensures Weight(a + b) == Weight(a) + Weight(b)
  {
    if a == [] {
      assert a + b == b;
    } else {
      assert (a + b)[1..] == a[1..] + b;
      WeightAdds(a[1..], b);
    }
  }

  function Translated(s: string, m: Mode): seq<Piece>
    requires ValidMode(m)
  {
    Read(EscapePercent(Qmarks(s, m)))
  }

  // ---------------------------------------------------------------- both passes together

  // Characters that neither open nor close anything nor are translated.
  predicate Inert(c: char) {
    c != '-' && c != '/' && c != '*' && c != '\n' && c != '?' && c != '%' && !IsQuote(c)
  }

  // The modes of this scanner, which does not know dollar quoting.
  predicate Plainer(m: Mode) {
    ValidMode(m) && !m.Dollar?
  }

  lemma TurnPlainer(s: string, m: Mode)
    requires s != "" && Plainer(m)
    ensures var t := Turn(s, m, false);
            && Plainer(t.next) && t.width <= 2
            && (IsMark(s, m) ==> t == Token(1, m))
            && (s[0] == '%' ==> t == Token(1, m))
            && (Inert(s[0]) ==> t == Token(1, m))
            && (s[0] != '%' ==> '%' !in s[..t.width])
  {
  }

  lemma QmarksTurn(s: string, m: Mode)
    requires s != "" && Plainer(m) && (Inert(s[0]) || s[0] == '%')
    ensures Qmarks(s, m) == [s[0]] + Qmarks(s[1..], m)
    ensures Intended(s, m) == [Lit(s[0])] + Intended(s[1..], m)
  {
    TurnPlainer(s, m);
    assert s[..1] == [s[0]] && Lits(s[..1]) == [Lit(s[0])];
  }

  lemma QmarksHead(s: string, m: Mode)
    requires s != "" && Plainer(m)
    ensures Qmarks(s, m) != "" && Qmarks(s, m)[0] == if IsMark(s, m) then '%' else s[0]
  {
  }

  lemma {:induction false} QmarksInert(run: string, s: string, m: Mode)
    requires Plainer(m) && forall c <- run :: Inert(c)
    ensures Qmarks(run + s, m) == run + Qmarks(s, m)
    ensures Intended(run + s, m) == Lits(run) + Intended(s, m)
  {
    if run == "" {
      assert run + s == s;
    } else {
      assert (run + s)[1..] == run[1..] + s;
      QmarksTurn(run + s, m);
      QmarksInert(run[1..], s, m);
      Assoc([run[0]], run[1..], Qmarks(s, m));
      Assoc([Lit(run[0])], Lits(run[1..]), Intended(s, m));
      assert [run[0]] + run[1..] == run;
    }
  }

  // Inert text at the head of the translation was there before it.
  lemma {:induction false} InertBack(run: string, s: string, m: Mode)
    requires Plainer(m) && (forall c <- run :: Inert(c)) && run <= Qmarks(s, m)
    ensures run <= s
  {
    hide Turn, Qmarks, Intended;
    if run != "" {
      QmarksOfNothing(m);
      QmarksHead(s, m);
      assert run[0] in run && run[0] == Qmarks(s, m)[0];
      QmarksTurn(s, m);
      PrefixTail(run, s[0], Qmarks(s[1..], m));
      InertBack(run[1..], s[1..], m);
      PrefixTail(run, s[0], s[1..]);
      assert [s[0]] + s[1..] == s;
    }
  }

  lemma QmarksOfNothing(m: Mode)
    requires Plainer(m)
    ensures Qmarks("", m) == ""
  {
  }

  lemma PrefixTail(run: string, c: char, rest: string)
    requires run != ""
    ensures run <= [c] + rest <==> run[0] == c && run[1..] <= rest
  {
    var s := [c] + rest;
    assert s[1..] == rest;
    if run <= s {
      assert run == s[..|run|] && run[1..] == rest[..|run| - 1];
    }
  }

  function Group(name: string): string {
    "(" + name + ")s"
  }

  lemma GroupFound(name: string, rest: string)
    requires IsName(name)
    ensures NameAhead(Group(name) + rest) == |name| && forall c <- Group(name) :: Inert(c)
  {
    NameFound(name, rest);
    forall c | c in Group(name) ensures Inert(c) {}
  }

  lemma GroupAhead(s: string) returns (name: string, rest: string)
    requires NameAhead(s) > 0
    ensures IsName(name) && s == Group(name) + rest && |name| == NameAhead(s)
  {
    var n := NameAhead(s);
    name, rest := s[1..n + 1], s[n + 3..];
    assert s[n + 1] == s[1..][n] && s[n + 2] == s[1..][n + 1];
  }

  lemma NameKept(s: string, m: Mode)
    requires Plainer(m) && NameAhead(s) > 0
    ensures NameAhead(Qmarks(s, m)) == NameAhead(s)
  {
    var name, rest := GroupAhead(s);
    GroupFound(name, rest);
    GroupFound(name, Qmarks(rest, m));
    QmarksInert(Group(name), rest, m);
  }

  lemma NameWasThere(s: string, m: Mode)
    requires Plainer(m) && NameAhead(Qmarks(s, m)) > 0
    ensures NameAhead(s) > 0
  {
    var name, rest := GroupAhead(Qmarks(s, m));
    GroupFound(name, rest);
    InertBack(Group(name), s, m);
    GroupFound(name, s[|Group(name)|..]);
    assert s == Group(name) + s[|Group(name)|..];
  }

  // The first pass neither makes nor breaks a named parameter.
  lemma NameTransfers(s: string, m: Mode)
    requires Plainer(m)
    ensures NameAhead(Qmarks(s, m)) == NameAhead(s)
  {
    if NameAhead(s) > 0 {
      NameKept(s, m);
    } else if NameAhead(Qmarks(s, m)) > 0 {
      NameWasThere(s, m);
    }
  }

  // ---------------------------------------------------------------- one step of both passes

  lemma ReadEscaped(p: Piece, x: string, rest: string)
    requires Proper(p) && x != "" && EscapeTurn(x).text == Spelled(p) && x[EscapeTurn(x).width..] == rest
    ensures Read(EscapePercent(x)) == [p] + Read(EscapePercent(rest))
  {
    ReadStep(p, EscapePercent(rest));
  }

  lemma {:induction false} ReadLits(w: string, x: string)
    requires '%' !in w
    ensures Read(EscapePercent(w + x)) == Lits(w) + Read(EscapePercent(x))
  {
    if w == "" {
      assert w + x == x;
    } else {
      assert (w + x)[1..] == w[1..] + x;
      ReadEscaped(Lit(w[0]), w + x, w[1..] + x);
      ReadLits(w[1..], x);
    }
  }

  // No percent sign at the head: the token means what it says.
  lemma OrdinaryStep(s: string, m: Mode)
    requires s != "" && Plainer(m) && s[0] != '%'
    ensures var t := Turn(s, m, false);
            var head := if IsMark(s, m) then [Positional('s')] else Lits(s[..t.width]);
            && Translated(s, m) == head + Translated(s[t.width..], t.next)
            && Intended(s, m) == head + Intended(s[t.width..], t.next)
  {
    var t := Turn(s, m, false);
    var rest := Qmarks(s[t.width..], t.next);
    TurnPlainer(s, m);
    if IsMark(s, m) {
      Cut("%s", rest);
      assert NameAhead(("%s" + rest)[1..]) == 0;
      ReadEscaped(Positional('s'), "%s" + rest, rest);
    } else {
      ReadLits(s[..t.width], rest);
    }
  }

  // A percent sign that clashes with nothing is a literal one.
  lemma PercentStep(s: string, m: Mode)
    requires s != "" && Plainer(m) && s[0] == '%' && !Clash(s[1..], m)
    ensures Translated(s, m) == [Lit('%')] + Translated(s[1..], m)
    ensures Intended(s, m) == [Lit('%')] + Intended(s[1..], m)
  {
    var after := Qmarks(s[1..], m);
    QmarksTurn(s, m);
    assert (['%'] + after)[1..] == after;
    if s[1..] != "" { QmarksHead(s[1..], m); }
    NameTransfers(s[1..], m);
    ReadEscaped(Lit('%'), ['%'] + after, after);
  }

  // One that clashes is read together with what follows it, and weight is lost.
  lemma ClashStep(s: string, m: Mode) returns (read: seq<Piece>, meant: seq<Piece>, width: nat)
    requires s != "" && Plainer(m) && s[0] == '%' && Clash(s[1..], m)
    ensures 1 <= width <= |s| && Weight(read) < Weight(meant)
    ensures Translated(s, m) == read + Translated(s[width..], m)
    ensures Intended(s, m) == meant + Intended(s[width..], m)
  {
    QmarksTurn(s, m);
    if NameAhead(s[1..]) > 0 {
      read, meant, width := ClashName(s, m);
    } else if IsMark(s[1..], m) {
      read, meant, width := ClashMark(s, m);
    } else {
      read, meant, width := ClashLetter(s, m);
    }
  }

  lemma TwoLetters(s: string, m: Mode)
    requires |s| > 1 && Plainer(m) && s[0] == '%' && (IsFormat(s[1]) || s[1] == '%')
    ensures Qmarks(s, m) == ['%', s[1]] + Qmarks(s[2..], m)
    ensures Intended(s, m) == [Lit('%'), Lit(s[1])] + Intended(s[2..], m)
  {
    QmarksTurn(s, m);
    QmarksTurn(s[1..], m);
    assert s[1..][1..] == s[2..];
    Assoc(['%'], [s[1]], Qmarks(s[2..], m));
    Assoc([Lit('%')], [Lit(s[1])], Intended(s[2..], m));
    assert [Lit('%')] + [Lit(s[1])] == [Lit('%'), Lit(s[1])] && ['%'] + [s[1]] == ['%', s[1]];
  }

  lemma ReadPair(c: char, rest: string)
    requires IsFormat(c) || c == '%'
    ensures Read(EscapePercent(['%', c] + rest))
         == [if c == '%' then Lit('%') else Positional(c)] + Read(EscapePercent(rest))
  {
    var x := ['%', c] + rest;
    Cut(['%', c], rest);
    assert NameAhead(x[1..]) == 0;
    ReadEscaped(if c == '%' then Lit('%') else Positional(c), x, rest);
  }

  lemma ClashLetter(s: string, m: Mode) returns (read: seq<Piece>, meant: seq<Piece>, width: nat)
    requires |s| > 1 && Plainer(m) && s[0] == '%' && (IsFormat(s[1]) || s[1] == '%')
    ensures 1 <= width <= |s| && Weight(read) < Weight(meant)
    ensures Translated(s, m) == read + Translated(s[width..], m)
    ensures Intended(s, m) == meant + Intended(s[width..], m)
  {
    read, meant, width := [if s[1] == '%' then Lit('%') else Positional(s[1])], [Lit('%'), Lit(s[1])], 2;
    TwoLetters(s, m);
    ReadPair(s[1], Qmarks(s[2..], m));
    assert Weight(meant) == 2 + Weight(meant[1..]) == 4;
  }

  lemma MarkedPercent(s: string, m: Mode)
    requires |s| > 1 && Plainer(m) && s[0] == '%' && IsMark(s[1..], m)
    ensures Qmarks(s, m) == "%%" + ("s" + Qmarks(s[2..], m))
    ensures Intended(s, m) == [Lit('%'), Positional('s')] + Intended(s[2..], m)
  {
    QmarksTurn(s, m);
    TurnPlainer(s[1..], m);
    assert s[1..][1..] == s[2..];
    Assoc("%", "%s", Qmarks(s[2..], m));
    Assoc("%%", "s", Qmarks(s[2..], m));
    assert "%" + "%s" == "%%" + "s";
    Assoc([Lit('%')], [Positional('s')], Intended(s[2..], m));
    assert [Lit('%')] + [Positional('s')] == [Lit('%'), Positional('s')];
  }

  lemma ClashMark(s: string, m: Mode) returns (read: seq<Piece>, meant: seq<Piece>, width: nat)
    requires |s| > 1 && Plainer(m) && s[0] == '%' && IsMark(s[1..], m)
    ensures 1 <= width <= |s| && Weight(read) < Weight(meant)
    ensures Translated(s, m) == read + Translated(s[width..], m)
    ensures Intended(s, m) == meant + Intended(s[width..], m)
  {
    read, meant, width := [Lit('%')] + Lits("s"), [Lit('%'), Positional('s')], 2;
    var rest := Qmarks(s[2..], m);
    MarkedPercent(s, m);
    ReadPair('%', "s" + rest);
    ReadLits("s", rest);
    Assoc([Lit('%')], Lits("s"), Translated(s[2..], m));
    LitsWeigh("s");
    WeightAdds([Lit('%')], Lits("s"));
    assert Weight(meant) == 2 + Weight(meant[1..]) == 5;
  }

  lemma NamedPercent(s: string, m: Mode, name: string, after: string)
    requires s != "" && Plainer(m) && s[0] == '%' && IsName(name) && s[1..] == Group(name) + after
    ensures Qmarks(s, m) == "%" + (Group(name) + Qmarks(after, m))
    ensures Intended(s, m) == Lits("%" + Group(name)) + Intended(after, m)
  {
    QmarksTurn(s, m);
    GroupFound(name, after);
    QmarksInert(Group(name), after, m);
    assert ("%" + Group(name))[1..] == Group(name);
    Assoc([Lit('%')], Lits(Group(name)), Intended(after, m));
  }

  lemma ClashName(s: string, m: Mode) returns (read: seq<Piece>, meant: seq<Piece>, width: nat)
    requires |s| > 1 && Plainer(m) && s[0] == '%' && NameAhead(s[1..]) > 0
    ensures 1 <= width <= |s| && Weight(read) < Weight(meant)
    ensures Translated(s, m) == read + Translated(s[width..], m)
    ensures Intended(s, m) == meant + Intended(s[width..], m)
  {
    var name, after := GroupAhead(s[1..]);
    read, meant, width := [Named(name)], Lits("%" + Group(name)), 1 + |Group(name)|;
    assert s[width..] == s[1..][|Group(name)|..] == after;
    NamedPercent(s, m, name, after);
    ReadName(name, Qmarks(after, m));
    LitsWeigh("%" + Group(name));
  }

  lemma ReadName(name: string, rest: string)
    requires IsName(name)
    ensures Read(EscapePercent("%" + (Group(name) + rest))) == [Named(name)] + Read(EscapePercent(rest))
  {
    GroupFound(name, rest);
    NameSpelled(name, rest);
    ReadEscaped(Named(name), "%" + (Group(name) + rest), rest);
  }

  lemma NameSpelled(name: string, rest: string)
    requires IsName(name) && NameAhead(Group(name) + rest) == |name|
    ensures var x := "%" + (Group(name) + rest);
            EscapeTurn(x) == Chunk(Spelled(Named(name)), |name| + 4) && x[|name| + 4..] == rest
  {
    var x := "%" + (Group(name) + rest);
    assert x[1..] == Group(name) + rest;
    assert x == Spelled(Named(name)) + rest;
    Cut(Spelled(Named(name)), rest);
  }

  lemma {:induction false} LitsWeigh(s: string)
    ensures Weight(Lits(s)) == 2 * |s|
  {
    if s != "" {
      assert Lits(s)[1..] == Lits(s[1..]);
      LitsWeigh(s[1..]);
    }
  }

  // ---------------------------------------------------------------- exactly when it is right

  lemma {:induction false} TranslationWeighs(s: string, m: Mode)
    requires Plainer(m)
    ensures NoClash(s, m) ==> Translated(s, m) == Intended(s, m)
    ensures !NoClash(s, m) ==> Weight(Translated(s, m)) < Weight(Intended(s, m))
    decreases |s|
  {
    if s == "" {
    } else if s[0] == '%' && Clash(s[1..], m) {
      var read, meant, width := ClashStep(s, m);
      TranslationWeighs(s[width..], m);
      WeightAdds(read, Translated(s[width..], m));
      WeightAdds(meant, Intended(s[width..], m));
    } else {
      var t := Turn(s, m, false);
      TurnPlainer(s, m);
      TranslationWeighs(s[t.width..], t.next);
      var head :=
        if s[0] == '%' then [Lit('%')] else if IsMark(s, m) then [Positional('s')] else Lits(s[..t.width]);
      if s[0] == '%' { PercentStep(s, m); } else { OrdinaryStep(s, m); }
      WeightAdds(head, Translated(s[t.width..], t.next));
      WeightAdds(head, Intended(s[t.width..], t.next));
    }
  }

  // The two passes keep the meaning of a statement exactly when no percent sign clashes
  // with what follows it.
  lemma MeaningKeptExactly(sql: string)
    ensures Translated(sql, Top) == Intended(sql, Top) <==> NoClash(sql, Top)
  {
    TranslationWeighs(sql, Top);
  }

  // A clash is possible: a pattern such as LIKE '%s' is taken for a parameter.
  lemma PatternTakenForParameter()
    ensures Translated("'%s'", Top) != Intended("'%s'", Top)
  {
    var s := "'%s'";
    assert s[1..] == "%s'" && s[1..][1..] == "s'";
    assert Turn(s, Top, false) == Token(1, Quoted('\''));
    assert !NoClash(s[1..], Quoted('\''));
    MeaningKeptExactly(s);
  }

  // ---------------------------------------------------------------- translating twice

  // Only these two characters of the remaining text decide a turn.
  lemma TurnAlike(s: string, x: string, m: Mode)
    requires Plainer(m) && s != "" && x != "" && s[0] == x[0]
    requires |s| > 1 <==> |x| > 1
    requires |s| > 1 ==> s[1] == x[1] || (s[1] == '?' && x[1] == '%')
    ensures Turn(x, m, false) == Turn(s, m, false)
  {
  }

  lemma {:induction false} QmarksTwice(s: string, m: Mode)
    requires Plainer(m)
    ensures Qmarks(Qmarks(s, m), m) == Qmarks(s, m)
    decreases |s|
  {
    if s != "" {
      var t := Turn(s, m, false);
      var token, rest := s[..t.width], Qmarks(s[t.width..], t.next);
      TurnPlainer(s, m);
      QmarksTwice(s[t.width..], t.next);
      if IsMark(s, m) {
        QmarksPlaceholder(rest);
      } else {
        QmarksSameToken(s, m);
        Cut(token, rest);
      }
    }
  }

  lemma QmarksPlaceholder(rest: string)
    ensures Qmarks("%s" + rest, Top) == "%s" + Qmarks(rest, Top)
  {
    assert ("%s" + rest)[1..] == "s" + rest && ("s" + rest)[1..] == rest;
    QmarksTurn("%s" + rest, Top);
    QmarksTurn("s" + rest, Top);
    Assoc("%", "s", Qmarks(rest, Top));
    assert "%" + "s" == "%s";
  }

  lemma QmarksSameToken(s: string, m: Mode)
    requires s != "" && Plainer(m) && !IsMark(s, m)
    ensures Turn(Qmarks(s, m), m, false) == Turn(s, m, false) && !IsMark(Qmarks(s, m), m)
  {
    var t := Turn(s, m, false);
    var tail := s[t.width..];
    if tail != "" {
      TurnPlainer(s, m);
      QmarksHead(tail, t.next);
    }
    TurnAlike(s, Qmarks(s, m), m);
  }

  // ---------------------------------------------------------------- against the grammar

  // The segments printed with every question mark that is a segment of its own replaced.
  function PrintMarked(gs: seq<Segment>): string
    requires forall g <- gs :: Lexical(g)
  {
    if gs == [] then ""
    else (if gs[0] == Plain('?') then "%s" else Written(gs[0])) + PrintMarked(gs[1..])
  }

  // Inside a literal or a comment nothing is translated.
  lemma {:induction false} QmarksClose(a: string, b: string, m: Mode)
    requires Plainer(m) && Closes(a + b, |a|, m, false)
    ensures Qmarks(a + b, m) == a + Qmarks(b, Top)
    decreases |a|
  {
    if m.Top? {
      assert a + b == b;
    } else {
      var t := Turn(a + b, m, false);
      var token, rest := a[..t.width], a[t.width..];
      assert a == token + rest;
      Assoc(token, rest, b);
      Cut(token, rest + b);
      TurnPlainer(a + b, m);
      QmarksClose(rest, b, t.next);
      Assoc(token, rest, Qmarks(b, Top));
    }
  }

  lemma QmarksOfUnit(g: Segment, after: string)
    requires Lexical(g) && Unit(g, after, false) && g != Plain('?')
    ensures Qmarks(Written(g) + after, Top) == Written(g) + Qmarks(after, Top)
  {
    var a := Written(g);
    var t := Turn(a + after, Top, false);
    var token, rest := a[..t.width], a[t.width..];
    assert a == token + rest;
    Assoc(token, rest, after);
    Cut(token, rest + after);
    TurnPlainer(a + after, Top);
    QmarksClose(rest, after, t.next);
    Assoc(token, rest, Qmarks(after, Top));
  }

  // A statement is translated at exactly the question marks that are segments of their own.
  lemma {:induction false} QmarksOfSegments(gs: seq<Segment>)
    requires WellFormed(gs, false)
    ensures Qmarks(Print(gs), Top) == PrintMarked(gs)
  {
    if gs != [] {
      var g, after := gs[0], Print(gs[1..]);
      QmarksOfSegments(gs[1..]);
      Cut(Written(g), after);
      if g != Plain('?') {
        SegmentIsUnit(g, after, false);
        QmarksOfUnit(g, after);
      }
    }
  }
}
