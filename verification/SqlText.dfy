/** One turn of the SQL scanners: what stands at the head of the remaining text. */
module SqlText {
  // What the scanner is inside of.
  datatype Mode = Top | LineComment | BlockComment | Quoted(quote: char) | Dollar(tag: string)

  predicate IsQuote(c: char) {
    c == '\'' || c == '"'
  }

  // [A-Za-z_0-9]
  predicate IsTagChar(c: char) {
    'A' <= c <= 'Z' || 'a' <= c <= 'z' || c == '_' || '0' <= c <= '9'
  }

  predicate Second(s: string, c: char) {
    |s| > 1 && s[1] == c
  }

  function TagRun(s: string): (n: nat)
    ensures n <= |s|
  {
    if s != "" && IsTagChar(s[0]) then 1 + TagRun(s[1..]) else 0
  }

  // The length of the match of \$[A-Za-z_0-9]*\$ at the head, 0 if there is none.
  function OpenTag(s: string): (n: nat)
    ensures n <= |s|
  {
    if s == "" || s[0] != '$' then 0
    else
      var e := 1 + TagRun(s[1..]);
      if e < |s| && s[e] == '$' then e + 1 else 0
  }

  predicate ValidTag(tag: string) {
    tag != "" && forall k :: 0 <= k < |tag| ==> IsTagChar(tag[k]) || tag[k] == '$'
  }

  predicate ValidMode(m: Mode) {
    (m.Quoted? ==> IsQuote(m.quote)) && (m.Dollar? ==> ValidTag(m.tag))
  }

  datatype Token = Token(width: nat, next: Mode)

  lemma {:induction false} TagRunChars(s: string)
    ensures forall k :: 0 <= k < TagRun(s) ==> IsTagChar(s[k])
  {
    if s != "" && IsTagChar(s[0]) {
      TagRunChars(s[1..]);
      forall k | 0 <= k < TagRun(s) ensures IsTagChar(s[k]) {
        if k > 0 { assert s[k] == s[1..][k - 1]; }
      }
    }
  }

  lemma OpenTagValid(s: string)
    requires OpenTag(s) > 0
    ensures ValidTag(s[..OpenTag(s)])
  {
    TagRunChars(s[1..]);
    var tag := s[..OpenTag(s)];
    forall k | 0 <= k < |tag| ensures IsTagChar(tag[k]) || tag[k] == '$' {
      if 0 < k < |tag| - 1 { assert tag[k] == s[1..][k - 1]; }
    }
  }

  // One iteration of the scanner loops.  `dollars` says whether dollar-quoted
  // strings are recognised.
  function Turn(s: string, m: Mode, dollars: bool): (t: Token)
    requires s != "" && ValidMode(m)
    ensures 1 <= t.width <= |s| && ValidMode(t.next)
  {
    match m
    case LineComment => Token(1, if s[0] == '\n' then Top else LineComment)
    case BlockComment => if s[0] == '*' && Second(s, '/') then Token(2, Top) else Token(1, BlockComment)
    case Quoted(q) =>
      if s[0] == q then (if Second(s, q) then Token(2, m) else Token(1, Top)) else Token(1, m)
    case Dollar(tag) => if tag <= s then Token(|tag|, Top) else Token(1, m)
    case Top => TopTurn(s, dollars)
  }

  function TopTurn(s: string, dollars: bool): (t: Token)
    requires s != ""
    ensures 1 <= t.width <= |s| && ValidMode(t.next)
  {
    var c := s[0];
    if c == '-' && Second(s, '-') then Token(2, LineComment)
    else if c == '/' && Second(s, '*') then Token(2, BlockComment)
    else if IsQuote(c) then Token(1, Quoted(c))
    else if dollars && OpenTag(s) > 0 then
      OpenTagValid(s);
      Token(OpenTag(s), Dollar(s[..OpenTag(s)]))
    else Token(1, Top)
  }

  // The mode in which the scan of s ends.
  function EndMode(s: string, m: Mode, dollars: bool): (e: Mode)
    requires ValidMode(m)
    decreases |s|
  {
    if s == "" then m
    else
      var t := Turn(s, m, dollars);
      EndMode(s[t.width..], t.next, dollars)
  }

  lemma Assoc<T>(a: seq<T>, b: seq<T>, c: seq<T>)
    ensures a + (b + c) == (a + b) + c
  {
  }

  lemma Cut<T>(a: seq<T>, b: seq<T>)
    ensures (a + b)[..|a|] == a && (a + b)[|a|..] == b
  {
  }

  // ---------------------------------------------------------------- joining and trimming

  function Join(parts: seq<string>, sep: string): string {
    if parts == [] then ""
    else if |parts| == 1 then parts[0]
    else parts[0] + sep + Join(parts[1..], sep)
  }

  // The characters that str.strip() removes.
  predicate IsSpace(c: char) {
    || '\U{0009}' <= c <= '\U{000D}' || '\U{001C}' <= c <= '\U{0020}' || c == '\U{0085}' || c == '\U{00A0}'
    || c == '\U{1680}' || '\U{2000}' <= c <= '\U{200A}' || c == '\U{2028}' || c == '\U{2029}'
    || c == '\U{202F}' || c == '\U{205F}' || c == '\U{3000}'
  }

  function TrimLeft(s: string): string {
    if s != "" && IsSpace(s[0]) then TrimLeft(s[1..]) else s
  }

  function TrimRight(s: string): string {
    if s != "" && IsSpace(s[|s| - 1]) then TrimRight(s[..|s| - 1]) else s
  }

  function Trim(s: string): string {
    TrimRight(TrimLeft(s))
  }

  predicate Trimmed(s: string) {
    s != "" && !IsSpace(s[0]) && !IsSpace(s[|s| - 1])
  }
}
