/**
 * The lexical layer of the model autocoder (tools/autocoder.py): the regular
 * expressions that validate names, the `{arg}` placeholder syntax of field
 * names, and the two names derived from a field name: the C++ member name and
 * the C++ expression that spells the field's run-time path.
 */
module AutocoderNames {
  import opened Wrappers

  predicate IsLower(c: char) { 'a' <= c <= 'z' }
  predicate IsUpper(c: char) { 'A' <= c <= 'Z' }
  predicate IsDigit(c: char) { '0' <= c <= '9' }
  predicate IsLetter(c: char) { IsLower(c) || IsUpper(c) }
  predicate IsArgChar(c: char) { IsLower(c) || c == '_' }

  /** Python's `re.match` of a pattern `^P$`: `$` also matches just before a
    * final newline, so P may match either all of `s` or all of `s` but one
    * trailing "\n". */
  predicate Anchored(p: string -> bool, s: string) {
    p(s) || (|s| > 0 && s[|s| - 1] == '\n' && p(s[..|s| - 1]))
  }

  /** `[a-z][a-z_]*` over the whole string. */
  predicate ArgBody(s: string) {
    |s| >= 1 && IsLower(s[0]) && forall i :: 1 <= i < |s| ==> IsArgChar(s[i])
  }

  /** `[A-Z][A-Za-z0-9]*` over the whole string. */
  predicate ModelBody(s: string) {
    |s| >= 1 && IsUpper(s[0]) && forall i :: 1 <= i < |s| ==> IsLetter(s[i]) || IsDigit(s[i])
  }

  /** `[^"\n\t]+` over the whole string. */
  predicate CommentBody(s: string) {
    |s| >= 1 && forall i :: 0 <= i < |s| ==> s[i] != '"' && s[i] != '\n' && s[i] != '\t'
  }

  /** `( |[A-Z][a-z0-9])*` over the whole string. */
  predicate TypeTail(s: string)
    decreases |s|
  {
    s == []
    || (s[0] == ' ' && TypeTail(s[1..]))
    || (|s| >= 2 && IsUpper(s[0]) && (IsLower(s[1]) || IsDigit(s[1])) && TypeTail(s[2..]))
  }

  /** `([A-Z][a-z0-9])( |[A-Z][a-z0-9])*` over the whole string. */
  predicate TypeBody(s: string) {
    |s| >= 2 && IsUpper(s[0]) && (IsLower(s[1]) || IsDigit(s[1])) && TypeTail(s[2..])
  }

  predicate MatchesArg(s: string) { Anchored(ArgBody, s) }
  predicate MatchesModel(s: string) { Anchored(ModelBody, s) }
  predicate MatchesComment(s: string) { Anchored(CommentBody, s) }
  predicate MatchesType(s: string) { Anchored(TypeBody, s) }

  /** A trailing newline gets through every anchored pattern whose body
    * accepts the rest: the comment pattern excludes "\n" from its character
    * class, yet a comment ending in one newline is accepted. */
  lemma CommentTrailingNewline(s: string)
    requires CommentBody(s)
    ensures MatchesComment(s + "\n")
    ensures !CommentBody(s + "\n")
  {
    assert (s + "\n")[..|s|] == s;
    assert (s + "\n")[|s|] == '\n';
  }

  /* ---------------------------------------------------------------------- */
  /* Field names and their `{arg}` placeholders                             */
  /* ---------------------------------------------------------------------- */

  /** Length of the longest prefix of `s` made of `[a-z_]` characters. */
  function ArgRun(s: string): (k: nat)
    ensures k <= |s|
    ensures forall i :: 0 <= i < k ==> IsArgChar(s[i])
    ensures k < |s| ==> !IsArgChar(s[k])
  {
    if s != [] && IsArgChar(s[0]) then 1 + ArgRun(s[1..]) else 0
  }

  /** The argument named by the placeholder `\{[a-z][a-z_]*\}` that starts
    * `s`, if one does. */
  function Placeholder(s: string): (r: Option<string>)
    ensures r.Some? ==> ArgBody(r.value) && |r.value| + 2 <= |s|
  {
    if |s| >= 3 && s[0] == '{' && IsLower(s[1]) then
      var k := ArgRun(s[1..]);
      if 1 + k < |s| && s[1 + k] == '}' then Some(s[1..1 + k]) else None
    else None
  }

  /** A recognised placeholder is the text's prefix `{a}`. */
  lemma PlaceholderShape(s: string)
    requires Placeholder(s).Some?
    ensures var a := Placeholder(s).value; s == "{" + a + "}" + s[|a| + 2..]
  {
    BracedPrefix(s, Placeholder(s).value);
  }

  /** A run of `[a-z_]` characters stops at the first other character. */
  lemma {:induction false} ArgRunStops(a: string, rest: string)
    requires forall i :: 0 <= i < |a| ==> IsArgChar(a[i])
    requires rest != [] && !IsArgChar(rest[0])
    ensures ArgRun(a + rest) == |a|
  {
    if a != [] {
      assert (a + rest)[1..] == a[1..] + rest;
      ArgRunStops(a[1..], rest);
    } else {
      assert a + rest == rest;
    }
  }

  /** Every placeholder `{a}` at the start of a text is recognised, whatever
    * follows it. */
  lemma PlaceholderComplete(a: string, rest: string)
    requires ArgBody(a)
    ensures Placeholder("{" + a + "}" + rest) == Some(a)
  {
    var s := "{" + a + "}" + rest;
    assert s[1..] == a + ("}" + rest);
    ArgRunStops(a, "}" + rest);
    assert s[1 + |a|] == '}';
    assert s[1..1 + |a|] == a;
  }


  /** A field name read as literal characters and `{arg}` placeholders. */
  datatype NameToken = Char(c: char) | Ref(arg: string)

  /** Splits a name the way `re.findall` walks it: a placeholder where one
    * starts, otherwise one literal character. */
  function Tokenize(s: string): seq<NameToken>
    decreases |s|
  {
    if s == [] then []
    else
      var p := Placeholder(s);
      if p.Some? then [Ref(p.value)] + Tokenize(s[|p.value| + 2..])
      else [Char(s[0])] + Tokenize(s[1..])
  }

  /** The arguments named by the placeholders, in order. */
  function Refs(toks: seq<NameToken>): seq<string> {
    if toks == [] then []
    else if toks[0].Ref? then [toks[0].arg] + Refs(toks[1..])
    else Refs(toks[1..])
  }

  /** A placeholder found at position `at` of a text, naming `arg`. */
  datatype Match = Match(at: nat, arg: string)

  /** The position just after the placeholder's closing brace. */
  function MatchEnd(m: Match): nat { m.at + |m.arg| + 2 }

  /** The text holds the placeholder `{arg}` of `m` at position `m.at`. */
  predicate OccursIn(m: Match, s: string) {
    ArgBody(m.arg) && MatchEnd(m) <= |s| && s[m.at..MatchEnd(m)] == "{" + m.arg + "}"
  }

  /** The scan of `re.findall` from position `i`: where a placeholder starts
    * it is taken and the scan resumes after it, otherwise the scan moves one
    * character on. The matches found lie in the text from `i` on, left to
    * right, without overlapping. */
  function Scan(s: string, i: nat): (r: seq<Match>)
    requires i <= |s|
    ensures forall k :: 0 <= k < |r| ==> i <= r[k].at && MatchEnd(r[k]) <= |s|
    ensures forall k, l :: 0 <= k < l < |r| ==> MatchEnd(r[k]) <= r[l].at
    decreases |s| - i
  {
    if i == |s| then []
    else
      match Placeholder(s[i..])
      case Some(a) => [Match(i, a)] + Scan(s, MatchEnd(Match(i, a)))
      case None => Scan(s, i + 1)
  }

  /** Every match of the scan is a placeholder occurring in the text. */
  lemma {:induction false} ScanSound(s: string, i: nat)
    requires i <= |s|
    ensures forall k :: 0 <= k < |Scan(s, i)| ==> OccursIn(Scan(s, i)[k], s)
    decreases |s| - i
  {
    if i < |s| {
      match Placeholder(s[i..])
      case Some(a) =>
        PlaceholderAt(s, i, a);
        ScanSound(s, MatchEnd(Match(i, a)));
      case None =>
        ScanSound(s, i + 1);
    }
  }

  /** A placeholder recognised at position `i` occurs there. */
  lemma PlaceholderAt(s: string, i: nat, a: string)
    requires i < |s| && Placeholder(s[i..]) == Some(a)
    ensures OccursIn(Match(i, a), s)
  {
    var t := s[i..];
    BracedPrefix(t, a);
    assert s[i..i + |a| + 2] == t[..|a| + 2];
  }

  /** `_re_replace.findall(name)`: the placeholder texts, left to right, each
    * the text found at its match. */
  function FindAll(s: string): (r: seq<string>)
    ensures |r| == |Scan(s, 0)|
    ensures forall k :: 0 <= k < |r| ==> r[k] == s[Scan(s, 0)[k].at..MatchEnd(Scan(s, 0)[k])]
  {
    var ms := Scan(s, 0);
    ScanSound(s, 0);
    seq(|ms|, k requires 0 <= k < |ms| => "{" + ms[k].arg + "}")
  }

  /** No placeholder starts inside another: past its opening brace a
    * placeholder holds only `[a-z_]` and its closing brace. */
  lemma NoBraceInside(s: string, m: Match)
    requires OccursIn(m, s)
    ensures forall k :: m.at < k < MatchEnd(m) ==> s[k] != '{'
  {
    var t := "{" + m.arg + "}";
    forall k | m.at < k < MatchEnd(m)
      ensures s[k] != '{'
    {
      assert s[k] == t[k - m.at];
      if k < MatchEnd(m) - 1 {
        assert t[k - m.at] == m.arg[k - m.at - 1];
        assert IsArgChar(m.arg[k - m.at - 1]);
      }
    }
  }

  /** The walk of the scan from `i` meets the match `m`. */
  predicate Reaches(s: string, i: nat, m: Match)
    requires i <= |s|
    decreases |s| - i
  {
    i < |s| &&
    match Placeholder(s[i..])
    case Some(a) => m == Match(i, a) || Reaches(s, MatchEnd(Match(i, a)), m)
    case None => Reaches(s, i + 1, m)
  }

  /** Every placeholder of the text is found: the scan never skips over the
    * position where one starts. */
  lemma ScanComplete(s: string, i: nat, m: Match)
    requires i <= m.at && OccursIn(m, s)
    ensures m in Scan(s, i)
  {
    ScanReaches(s, i, m);
    ReachesIn(s, i, m);
  }

  /** The walk from any position up to a placeholder's meets it. */
  lemma {:induction false} ScanReaches(s: string, i: nat, m: Match)
    requires i <= m.at && OccursIn(m, s)
    ensures Reaches(s, i, m)
    decreases m.at - i
  {
    if i == m.at {
      RecognisedAt(s, m);
    } else if Placeholder(s[i..]).Some? {
      var b := Placeholder(s[i..]).value;
      ScanSkipsNothing(s, Match(i, b), m);
      var j := MatchEnd(Match(i, b));
      ScanReaches(s, j, m);
      ReachesPast(s, i, b, j, m);
    } else {
      ScanReaches(s, i + 1, m);
    }
  }

  /** Past a placeholder taken at `i`, the walk goes on from its end. */
  lemma ReachesPast(s: string, i: nat, b: string, j: nat, m: Match)
    requires i < |s| && Placeholder(s[i..]) == Some(b)
    requires j == MatchEnd(Match(i, b)) <= |s| && Reaches(s, j, m)
    ensures Reaches(s, i, m)
  {
  }

  /** What the walk meets, the scan lists. */
  lemma {:induction false} ReachesIn(s: string, i: nat, m: Match)
    requires i <= |s| && Reaches(s, i, m)
    ensures m in Scan(s, i)
    decreases |s| - i
  {
    match Placeholder(s[i..])
    case Some(a) =>
      var j := MatchEnd(Match(i, a));
      ScanTakes(s, i, a, j);
      if m == Match(i, a) {
        InFront(m, Scan(s, j));
      } else {
        ReachesOn(s, i, a, j, m);
        ReachesIn(s, j, m);
        InSuffix([Match(i, a)], Scan(s, j), m);
      }
    case None =>
      ScanMoves(s, i);
      ReachesIn(s, i + 1, m);
  }

  /** A walk that meets `m` past the placeholder taken at `i` goes on from
    * that placeholder's end. */
  lemma ReachesOn(s: string, i: nat, a: string, j: nat, m: Match)
    requires i < |s| && Placeholder(s[i..]) == Some(a) && j == MatchEnd(Match(i, a))
    requires Reaches(s, i, m) && m != Match(i, a)
    ensures j <= |s| && Reaches(s, j, m)
  {
  }

  lemma InFront<T>(x: T, rest: seq<T>)
    ensures x in [x] + rest
  {
    assert ([x] + rest)[0] == x;
  }

  lemma InSuffix<T>(x: seq<T>, rest: seq<T>, y: T)
    requires y in rest
    ensures y in x + rest
  {
    var k :| 0 <= k < |rest| && rest[k] == y;
    assert (x + rest)[|x| + k] == y;
  }

  /** Where no placeholder starts, the scan moves one character on. */
  lemma ScanMoves(s: string, i: nat)
    requires i < |s| && Placeholder(s[i..]).None?
    ensures Scan(s, i) == Scan(s, i + 1)
  {
  }

  /** Where a placeholder starts, the scan takes it and resumes after it. */
  lemma ScanTakes(s: string, i: nat, a: string, j: nat)
    requires i < |s| && Placeholder(s[i..]) == Some(a) && j == MatchEnd(Match(i, a))
    ensures j <= |s| && Scan(s, i) == [Match(i, a)] + Scan(s, j)
  {
  }

  /** A placeholder occurring at a position is recognised there. */
  lemma RecognisedAt(s: string, m: Match)
    requires OccursIn(m, s)
    ensures Placeholder(s[m.at..]) == Some(m.arg)
  {
    assert s[m.at..] == s[m.at..MatchEnd(m)] + s[MatchEnd(m)..];
    PlaceholderComplete(m.arg, s[MatchEnd(m)..]);
  }

  /** A placeholder recognised before another ends before it starts. */
  lemma ScanSkipsNothing(s: string, first: Match, m: Match)
    requires first.at < |s| && Placeholder(s[first.at..]) == Some(first.arg)
    requires first.at < m.at && OccursIn(m, s)
    ensures MatchEnd(first) <= m.at
  {
    PlaceholderAt(s, first.at, first.arg);
    NoBraceInside(s, first);
    assert s[m.at] == (s[m.at..MatchEnd(m)])[0];
  }

  /** `findall` lists every placeholder of the text, as the match at its
    * position. */
  lemma FindAllComplete(s: string, m: Match)
    requires OccursIn(m, s)
    ensures m in Scan(s, 0)
    ensures "{" + m.arg + "}" in FindAll(s)
  {
    ScanComplete(s, 0, m);
    var k :| 0 <= k < |Scan(s, 0)| && Scan(s, 0)[k] == m;
    assert FindAll(s)[k] == "{" + m.arg + "}";
  }

  lemma RefsCons(t: NameToken, toks: seq<NameToken>)
    ensures Refs([t] + toks) == (if t.Ref? then [t.arg] else []) + Refs(toks)
  {
    assert ([t] + toks)[1..] == toks;
  }

  /** The scan and the tokenizer walk the text alike: the scan's matches
    * name the tokenizer's placeholders. */
  lemma {:induction false} ScanRefs(s: string, i: nat)
    requires i <= |s|
    ensures |Scan(s, i)| == |Refs(Tokenize(s[i..]))|
    ensures forall k :: 0 <= k < |Scan(s, i)| ==> Scan(s, i)[k].arg == Refs(Tokenize(s[i..]))[k]
    decreases |s| - i
  {
    if i < |s| {
      var t := s[i..];
      TokenizeHead(t);
      RefsCons(FirstToken(t), Tokenize(TokenRest(t)));
      match Placeholder(t)
      case Some(a) =>
        assert TokenRest(t) == s[MatchEnd(Match(i, a))..];
        ScanRefs(s, MatchEnd(Match(i, a)));
      case None =>
        assert TokenRest(t) == s[i + 1..];
        ScanRefs(s, i + 1);
    }
  }

  /** `findall` yields the placeholders of the tokenized name, in order,
    * each in braces. */
  lemma FindAllRefs(s: string)
    ensures |FindAll(s)| == |Refs(Tokenize(s))|
    ensures forall k :: 0 <= k < |FindAll(s)| ==> FindAll(s)[k] == "{" + Refs(Tokenize(s))[k] + "}"
  {
    assert s[0..] == s;
    ScanRefs(s, 0);
  }

  /** `[a-zA-Z0-9_\.]`: a literal character allowed in a field name. */
  predicate IsPathChar(c: char) { IsLetter(c) || IsDigit(c) || c == '_' || c == '.' }

  /** `([a-zA-Z]|\{[a-z][a-z_]*\})([a-zA-Z0-9_\.]|\{[a-z][a-z_]*\})*` over the
    * whole string: the alternatives are told apart by their first character,
    * so the pattern matches exactly when the tokenizer's walk meets only
    * placeholders and path characters, starting with a letter or placeholder. */
  predicate VariableBody(s: string) {
    var toks := Tokenize(s);
    |toks| >= 1
    && (toks[0].Ref? || IsLetter(toks[0].c))
    && forall i :: 0 <= i < |toks| ==> toks[i].Ref? || IsPathChar(toks[i].c)
  }

  predicate MatchesVariable(s: string) { Anchored(VariableBody, s) }

  /** A token of a validated name: no stray brace or quote as a literal
    * character, and a well-formed argument name in a placeholder. */
  predicate TokenOk(t: NameToken) {
    match t
    case Char(c) => c != '{' && c != '}' && c != '"'
    case Ref(a) => ArgBody(a)
  }

  predicate WellFormed(toks: seq<NameToken>) {
    forall i :: 0 <= i < |toks| ==> TokenOk(toks[i])
  }

  /* ---------------------------------------------------------------------- */
  /* Rendering token sequences back to text                                 */
  /* ---------------------------------------------------------------------- */

  /** One token, with the placeholders of the arguments in `done` spelled
    * `"+_arg+"` and the others left as `{arg}`. */
  function Piece(t: NameToken, done: set<string>): string {
    match t
    case Char(c) => [c]
    case Ref(a) => if a in done then "\"+_" + a + "+\"" else "{" + a + "}"
  }

  /** The name as the replace loop of `string_name` leaves it once the
    * arguments in `done` have been handled. */
  function RenderPartial(toks: seq<NameToken>, done: set<string>): string {
    if toks == [] then "" else Piece(toks[0], done) + RenderPartial(toks[1..], done)
  }

  /** The name with every placeholder replaced by `"+_arg+"`. */
  function Render(toks: seq<NameToken>): string {
    if toks == [] then ""
    else (if toks[0].Ref? then "\"+_" + toks[0].arg + "+\"" else [toks[0].c]) + Render(toks[1..])
  }

  /** The tokenizer's first token. */
  function FirstToken(s: string): NameToken
    requires s != []
  {
    var p := Placeholder(s);
    if p.Some? then Ref(p.value) else Char(s[0])
  }

  /** What the tokenizer reads after its first token. */
  function TokenRest(s: string): (r: string)
    requires s != []
    ensures |r| < |s|
  {
    var p := Placeholder(s);
    if p.Some? then s[|p.value| + 2..] else s[1..]
  }

  lemma {:induction false} DetokenizeTokenize(s: string)
    ensures RenderPartial(Tokenize(s), {}) == s
    decreases |s|
  {
    if s != [] {
      DetokenizeTokenize(TokenRest(s));
      TokenizeHead(s);
      RenderCons(FirstToken(s), Tokenize(TokenRest(s)), {});
      FirstPiece(s);
    }
  }

  /** Conversely, a well-formed token list rendered as text tokenizes back
    * into itself, so a rendered name's placeholders are its `Ref` tokens. */
  lemma {:induction false} TokenizeDetokenize(toks: seq<NameToken>)
    requires WellFormed(toks)
    ensures Tokenize(RenderPartial(toks, {})) == toks
  {
    if toks != [] {
      var rest := RenderPartial(toks[1..], {});
      var s := RenderPartial(toks, {});
      assert TokenOk(toks[0]) && WellFormed(toks[1..]);
      TokenizeDetokenize(toks[1..]);
      match toks[0]
      case Char(c) =>
        assert s == [c] + rest;
        assert s[1..] == rest;
      case Ref(a) =>
        assert s == "{" + a + "}" + rest;
        PlaceholderComplete(a, rest);
        assert s[|a| + 2..] == rest;
    }
  }

  /** The first token's text followed by the rest is the string again. */
  lemma FirstPiece(s: string)
    requires s != []
    ensures s == Piece(FirstToken(s), {}) + TokenRest(s)
  {
    var p := Placeholder(s);
    if p.Some? {
      BracedPrefix(s, p.value);
    } else {
      assert s == [s[0]] + s[1..];
    }
  }

  /** One step of the tokenizer's walk. */
  lemma TokenizeHead(s: string)
    requires s != []
    ensures Tokenize(s) == [FirstToken(s)] + Tokenize(TokenRest(s))
  {
  }

  lemma RenderCons(t: NameToken, toks: seq<NameToken>, done: set<string>)
    ensures RenderPartial([t] + toks, done) == Piece(t, done) + RenderPartial(toks, done)
  {
    assert ([t] + toks)[1..] == toks;
  }

  /** A string starting with `{a}` is that placeholder followed by the rest. */
  lemma BracedPrefix(s: string, a: string)
    requires |a| + 2 <= |s| && s[0] == '{' && s[1..|a| + 1] == a && s[|a| + 1] == '}'
    ensures s == "{" + a + "}" + s[|a| + 2..]
  {
    var k := |a| + 2;
    assert s[..k] == [s[0]] + s[1..k - 1] + [s[k - 1]];
    assert s == s[..k] + s[k..];
  }

  lemma {:induction false} RefsSubset(toks: seq<NameToken>, done: set<string>)
    requires forall a :: a in Refs(toks) ==> a in done
    ensures RenderPartial(toks, done) == Render(toks)
  {
    if toks != [] {
      if toks[0].Ref? {
        assert Refs(toks) == [toks[0].arg] + Refs(toks[1..]);
        assert toks[0].arg in Refs(toks);
      } else {
        assert Refs(toks) == Refs(toks[1..]);
      }
      assert forall a :: a in Refs(toks[1..]) ==> a in Refs(toks);
      RefsSubset(toks[1..], done);
    }
  }

  /* ---------------------------------------------------------------------- */
  /* Python's str.replace                                                   */
  /* ---------------------------------------------------------------------- */

  /** `s.replace(p, r)`: every leftmost non-overlapping occurrence of `p`. */
  function ReplaceAll(s: string, p: string, r: string): string
    requires |p| > 0
    decreases |s|
  {
    if s == [] then []
    else if p <= s then r + ReplaceAll(s[|p|..], p, r)
    else [s[0]] + ReplaceAll(s[1..], p, r)
  }

  /** Text without an opening brace holds no placeholder to replace. */
  lemma {:induction false} ReplaceSkips(x: string, y: string, p: string, r: string)
    requires |p| > 0 && p[0] == '{'
    requires forall i :: 0 <= i < |x| ==> x[i] != '{'
    ensures ReplaceAll(x + y, p, r) == x + ReplaceAll(y, p, r)
  {
    if x != [] {
      assert (x + y)[0] == x[0] != p[0];
      assert !(p <= x + y);
      assert (x + y)[1..] == x[1..] + y;
      ReplaceSkips(x[1..], y, p, r);
    } else {
      assert x + y == y;
    }
  }

  /** Two distinct placeholders never start the same text. */
  lemma DistinctPlaceholders(a: string, b: string, rest: string)
    requires ArgBody(a) && ArgBody(b) && a != b
    ensures !("{" + a + "}" <= "{" + b + "}" + rest)
  {
    var p := "{" + a + "}";
    var s := "{" + b + "}" + rest;
    if |a| < |b| {
      assert p[|a| + 1] == '}';
      assert s[|a| + 1] == b[|a|];
    } else if |a| > |b| {
      assert p[|b| + 1] == a[|b|];
      assert s[|b| + 1] == '}';
    } else {
      assert exists i :: 0 <= i < |a| && a[i] != b[i];
      var i :| 0 <= i < |a| && a[i] != b[i];
      assert p[i + 1] == a[i];
      assert s[i + 1] == b[i];
    }
  }

  /** Replacing the placeholder of `a` in one token's text. */
  lemma ReplacePiece(t: NameToken, done: set<string>, a: string, rest: string)
    requires TokenOk(t) && ArgBody(a)
    ensures ReplaceAll(Piece(t, done) + rest, "{" + a + "}", "\"+_" + a + "+\"")
         == Piece(t, done + {a}) + ReplaceAll(rest, "{" + a + "}", "\"+_" + a + "+\"")
  {
    var p := "{" + a + "}";
    var r := "\"+_" + a + "+\"";
    match t
    case Char(c) =>
      ReplaceSkips([c], rest, p, r);
    case Ref(b) =>
      if b in done {
        ReplaceSkips("\"+_" + b + "+\"", rest, p, r);
      } else if b == a {
        var s := p + rest;
        assert p <= s;
        assert s[|p|..] == rest;
      } else {
        var s := "{" + b + "}" + rest;
        DistinctPlaceholders(a, b, rest);
        assert s[1..] == (b + "}") + rest;
        ReplaceSkips(b + "}", rest, p, r);
        assert Piece(t, done + {a}) == "{" + b + "}";
      }
  }

  /** One pass of the replace loop in `string_name` turns the placeholders
    * of `a` into `"+_a+"` and touches nothing else. */
  lemma {:induction false} ReplaceOneArgument(toks: seq<NameToken>, done: set<string>, a: string, tail: string)
    requires WellFormed(toks) && ArgBody(a)
    requires forall i :: 0 <= i < |tail| ==> tail[i] != '{'
    ensures ReplaceAll(RenderPartial(toks, done) + tail, "{" + a + "}", "\"+_" + a + "+\"")
         == RenderPartial(toks, done + {a}) + tail
  {
    var p := "{" + a + "}";
    var r := "\"+_" + a + "+\"";
    if toks == [] {
      ReplaceNothing(tail, p, r);
      assert RenderPartial(toks, done) == [] && RenderPartial(toks, done + {a}) == [];
      assert [] + tail == tail;
    } else {
      RenderSplit(toks, done, tail);
      RenderSplit(toks, done + {a}, tail);
      ReplacePiece(toks[0], done, a, RenderPartial(toks[1..], done) + tail);
      ReplaceOneArgument(toks[1..], done, a, tail);
    }
  }

  lemma RenderSplit(toks: seq<NameToken>, done: set<string>, tail: string)
    requires toks != []
    ensures RenderPartial(toks, done) + tail == Piece(toks[0], done) + (RenderPartial(toks[1..], done) + tail)
  {
  }

  lemma ReplaceNothing(s: string, p: string, r: string)
    requires |p| > 0 && p[0] == '{'
    requires forall i :: 0 <= i < |s| ==> s[i] != '{'
    ensures ReplaceAll(s, p, r) == s
  {
    ReplaceSkips(s, [], p, r);
    assert s + [] == s;
  }

  /* ---------------------------------------------------------------------- */
  /* Tokenizing a validated name                                            */
  /* ---------------------------------------------------------------------- */

  lemma {:induction false} ArgRunAppend(s: string, c: char)
    requires !IsArgChar(c)
    ensures ArgRun(s + [c]) == ArgRun(s)
  {
    if s != [] {
      assert (s + [c])[0] == s[0];
      assert (s + [c])[1..] == s[1..] + [c];
      ArgRunAppend(s[1..], c);
    } else {
      assert s + [c] == [c];
    }
  }

  lemma PlaceholderAppend(s: string, c: char)
    requires !IsArgChar(c) && c != '}'
    ensures Placeholder(s + [c]) == Placeholder(s)
  {
    var t := s + [c];
    if |t| >= 3 && t[0] == '{' && IsLower(t[1]) {
      assert t[1..] == s[1..] + [c];
      ArgRunAppend(s[1..], c);
      var k := ArgRun(s[1..]);
      if 1 + k == |s| {
        assert t[1 + k] == c;
      } else {
        assert t[1 + k] == s[1 + k];
        assert t[1..1 + k] == s[1..1 + k];
      }
    }
  }

  lemma {:induction false} TokenizeAppend(s: string, c: char)
    requires !IsArgChar(c) && c != '}'
    ensures Tokenize(s + [c]) == Tokenize(s) + [Char(c)]
    decreases |s|
  {
    var t := s + [c];
    PlaceholderAppend(s, c);
    TokenizeHead(t);
    if s == [] {
      assert t == [c];
      assert TokenRest(t) == [];
    } else {
      TokenizeHead(s);
      TokenRestAppend(s, c);
      TokenizeAppend(TokenRest(s), c);
    }
  }

  lemma TokenRestAppend(s: string, c: char)
    requires s != [] && Placeholder(s + [c]) == Placeholder(s)
    ensures FirstToken(s + [c]) == FirstToken(s)
    ensures TokenRest(s + [c]) == TokenRest(s) + [c]
  {
    if Placeholder(s).Some? {
      RefRestAppend(s, c, Placeholder(s).value);
    } else {
      CharRestAppend(s, c);
    }
  }

  /** A placeholder read first stays first when a character is appended. */
  lemma RefRestAppend(s: string, c: char, a: string)
    requires s != [] && Placeholder(s + [c]) == Placeholder(s) == Some(a)
    ensures FirstToken(s + [c]) == FirstToken(s) == Ref(a)
    ensures TokenRest(s + [c]) == TokenRest(s) + [c]
  {
    DropSnoc(s, |a| + 2, c);
  }

  /** A literal character read first stays first when one is appended. */
  lemma CharRestAppend(s: string, c: char)
    requires s != [] && Placeholder(s + [c]) == Placeholder(s) == None
    ensures FirstToken(s + [c]) == FirstToken(s)
    ensures TokenRest(s + [c]) == TokenRest(s) + [c]
  {
    DropSnoc(s, 1, c);
  }

  /** Dropping a prefix and appending commute. */
  lemma DropSnoc<T>(s: seq<T>, k: nat, c: T)
    requires k <= |s|
    ensures (s + [c])[k..] == s[k..] + [c]
  {
  }

  lemma {:induction false} TokenizeArgs(s: string)
    ensures forall i :: 0 <= i < |Tokenize(s)| && Tokenize(s)[i].Ref? ==> ArgBody(Tokenize(s)[i].arg)
    decreases |s|
  {
    if s != [] {
      var p := Placeholder(s);
      if p.Some? {
        TokenizeArgs(s[|p.value| + 2..]);
      } else {
        TokenizeArgs(s[1..]);
      }
    }
  }

  lemma BodyWellFormed(s: string)
    requires VariableBody(s)
    ensures WellFormed(Tokenize(s))
  {
    TokenizeArgs(s);
    var toks := Tokenize(s);
    forall i | 0 <= i < |toks|
      ensures TokenOk(toks[i])
    {
      if toks[i].Char? {
        assert IsPathChar(toks[i].c);
      }
    }
  }

  /** Every name the variable pattern accepts tokenizes cleanly. */
  lemma ValidNameWellFormed(s: string)
    requires MatchesVariable(s)
    ensures WellFormed(Tokenize(s))
  {
    if VariableBody(s) {
      BodyWellFormed(s);
    } else {
      var b := s[..|s| - 1];
      assert VariableBody(b);
      assert s == b + ['\n'];
      TokenizeAppend(b, '\n');
      BodyWellFormed(b);
      assert Tokenize(s) == Tokenize(b) + [Char('\n')];
      assert TokenOk(Char('\n'));
    }
  }

  /* ---------------------------------------------------------------------- */
  /* member_name                                                            */
  /* ---------------------------------------------------------------------- */

  /** `s.replace(c, "")` for a one-character pattern. */
  function DeleteChar(s: string, c: char): (r: string)
    ensures |r| <= |s|
    ensures forall i :: 0 <= i < |r| ==> r[i] != c
    ensures forall i :: 0 <= i < |r| ==> r[i] in s
  {
    if s == [] then [] else (if s[0] == c then [] else [s[0]]) + DeleteChar(s[1..], c)
  }

  /** `s.replace(c, d)` for one-character pattern and replacement. */
  function MapChar(s: string, c: char, d: char): (r: string)
    ensures |r| == |s|
    ensures forall i :: 0 <= i < |r| ==> r[i] == if s[i] == c then d else s[i]
  {
    if s == [] then [] else [if s[0] == c then d else s[0]] + MapChar(s[1..], c, d)
  }

  /** Variable.member_name: braces removed, dots turned into underscores. */
  function MemberName(name: string): (r: string)
    ensures |r| <= |name|
    ensures forall i :: 0 <= i < |r| ==> r[i] != '.' && r[i] != '{' && r[i] != '}'
  {
    MapChar(DeleteChar(DeleteChar(name, '{'), '}'), '.', '_')
  }

  lemma {:induction false} DeleteCharDistributes(x: string, y: string, c: char)
    ensures DeleteChar(x + y, c) == DeleteChar(x, c) + DeleteChar(y, c)
  {
    if x != [] {
      var h := if x[0] == c then [] else [x[0]];
      assert (x + y)[0] == x[0];
      assert (x + y)[1..] == x[1..] + y;
      assert DeleteChar(x + y, c) == h + DeleteChar(x[1..] + y, c);
      DeleteCharDistributes(x[1..], y, c);
      Associative(h, DeleteChar(x[1..], c), DeleteChar(y, c));
    } else {
      assert x + y == y;
    }
  }

  lemma {:induction false} MapCharDistributes(x: string, y: string, c: char, d: char)
    ensures MapChar(x + y, c, d) == MapChar(x, c, d) + MapChar(y, c, d)
  {
    if x != [] {
      assert (x + y)[0] == x[0];
      assert (x + y)[1..] == x[1..] + y;
      MapCharDistributes(x[1..], y, c, d);
    } else {
      assert x + y == y;
    }
  }

  lemma MemberNameDistributes(x: string, y: string)
    ensures MemberName(x + y) == MemberName(x) + MemberName(y)
  {
    DeleteCharDistributes(x, y, '{');
    DeleteCharDistributes(DeleteChar(x, '{'), DeleteChar(y, '{'), '}');
    MapCharDistributes(DeleteChar(DeleteChar(x, '{'), '}'), DeleteChar(DeleteChar(y, '{'), '}'), '.', '_');
  }

  lemma {:induction false} NoSuchChar(s: string, c: char)
    requires forall i :: 0 <= i < |s| ==> s[i] != c
    ensures DeleteChar(s, c) == s
  {
    if s != [] { NoSuchChar(s[1..], c); }
  }

  lemma PlaceholderMemberName(a: string)
    requires ArgBody(a)
    ensures MemberName("{" + a + "}") == a
  {
    DeleteOpening(a);
    DeleteClosing(a);
    assert MapChar(a, '.', '_') == a;
  }

  lemma DeleteOpening(a: string)
    requires ArgBody(a)
    ensures DeleteChar("{" + a + "}", '{') == a + "}"
  {
    Associative("{", a, "}");
    var t := "{" + (a + "}");
    assert t[0] == '{' && t[1..] == a + "}";
    DeleteCharDistributes(a, "}", '{');
    NoSuchChar(a, '{');
    assert DeleteChar("}", '{') == "}";
  }

  lemma DeleteClosing(a: string)
    requires ArgBody(a)
    ensures DeleteChar(a + "}", '}') == a
  {
    DeleteCharDistributes(a, "}", '}');
    NoSuchChar(a, '}');
    assert DeleteChar("}", '}') == "";
  }

  /** The member name read off the tokens: literal characters with `.` as
    * `_`, and each placeholder as its bare argument name. */
  function Flatten(toks: seq<NameToken>): string {
    if toks == [] then ""
    else (if toks[0].Ref? then toks[0].arg else [if toks[0].c == '.' then '_' else toks[0].c]) + Flatten(toks[1..])
  }

  lemma {:induction false} MemberNameOfTokens(toks: seq<NameToken>)
    requires WellFormed(toks)
    ensures MemberName(RenderPartial(toks, {})) == Flatten(toks)
  {
    if toks != [] {
      assert WellFormed(toks[1..]);
      MemberNameOfTokens(toks[1..]);
      MemberNameDistributes(Piece(toks[0], {}), RenderPartial(toks[1..], {}));
      assert TokenOk(toks[0]);
      if toks[0].Ref? {
        PlaceholderMemberName(toks[0].arg);
      }
    }
  }

  /** For every validated field name, the member name is the name with the
    * placeholders' braces dropped and dots turned into underscores: for
    * `sensor.{index}.temp` it is `sensor_index_temp`. */
  lemma MemberNameFromTokens(name: string)
    requires MatchesVariable(name)
    ensures MemberName(name) == Flatten(Tokenize(name))
  {
    ValidNameWellFormed(name);
    DetokenizeTokenize(name);
    MemberNameOfTokens(Tokenize(name));
  }

  /* ---------------------------------------------------------------------- */
  /* string_name                                                            */
  /* ---------------------------------------------------------------------- */

  /** A term of the C++ string expression: a quoted literal or the member
    * `_arg` holding an argument's value. */
  datatype Term = Lit(s: string) | Var(a: string)

  /** The name as alternating literal and argument terms, beginning and
    * ending with a (possibly empty) literal. */
  function Terms(toks: seq<NameToken>): (ts: seq<Term>)
    ensures |ts| >= 1 && ts[0].Lit?
  {
    if toks == [] then [Lit("")]
    else if toks[0].Ref? then [Lit(""), Var(toks[0].arg)] + Terms(toks[1..])
    else
      var rest := Terms(toks[1..]);
      [Lit([toks[0].c] + rest[0].s)] + rest[1..]
  }

  function TermText(t: Term): string {
    match t
    case Lit(s) => "\"" + s + "\""
    case Var(a) => "_" + a
  }

  /** The terms joined by `+`. */
  function Print(ts: seq<Term>): string {
    if ts == [] then ""
    else if |ts| == 1 then TermText(ts[0])
    else TermText(ts[0]) + "+" + Print(ts[1..])
  }

  /** Drops an empty literal at either end, unless it is the only term. */
  function Trim(ts: seq<Term>): (r: seq<Term>)
    requires |ts| >= 1
    ensures |r| >= 1
  {
    var front := if |ts| > 1 && ts[0] == Lit("") then ts[1..] else ts;
    if |front| > 1 && front[|front| - 1] == Lit("") then front[..|front| - 1] else front
  }

  /** The C++ expression that `string_name` evaluates to for a valid field
    * name: its literal runs quoted, its placeholders as `_arg` members,
    * joined by `+`, with no empty literal at either end. */
  function StringNameOf(name: string): string {
    Print(Trim(Terms(Tokenize(name))))
  }

  /** What the C++ expression evaluates to when each member `_a` holds
    * `env(a)`. */
  function Eval(ts: seq<Term>, env: string -> string): string {
    if ts == [] then ""
    else (if ts[0].Lit? then ts[0].s else env(ts[0].a)) + Eval(ts[1..], env)
  }

  /** The field name with each placeholder replaced by its argument's value. */
  function Substitute(toks: seq<NameToken>, env: string -> string): string {
    if toks == [] then ""
    else (if toks[0].Ref? then env(toks[0].arg) else [toks[0].c]) + Substitute(toks[1..], env)
  }

  predicate TermOk(t: Term) {
    match t
    case Lit(s) => forall i :: 0 <= i < |s| ==> s[i] != '"'
    case Var(a) => ArgBody(a)
  }

  predicate TermsOk(ts: seq<Term>) {
    forall i :: 0 <= i < |ts| ==> TermOk(ts[i])
  }

  lemma {:induction false} TermsOfWellFormed(toks: seq<NameToken>)
    requires WellFormed(toks)
    ensures TermsOk(Terms(toks))
  {
    if toks != [] {
      assert TokenOk(toks[0]);
      assert WellFormed(toks[1..]);
      TermsOfWellFormed(toks[1..]);
      if toks[0].Char? {
        var rest := Terms(toks[1..]);
        assert TermOk(rest[0]);
        var head := [toks[0].c] + rest[0].s;
        assert forall i :: 1 <= i < |head| ==> head[i] == rest[0].s[i - 1];
        assert TermOk(Lit(head));
      }
    }
  }

  lemma {:induction false} PrintSnoc(ts: seq<Term>, t: Term)
    requires |ts| >= 1
    ensures Print(ts + [t]) == Print(ts) + "+" + TermText(t)
  {
    var u := ts + [t];
    if |ts| > 1 {
      assert u[0] == ts[0] && u[1..] == ts[1..] + [t];
      PrintSnoc(ts[1..], t);
      assert Print(u) == TermText(ts[0]) + "+" + (Print(ts[1..]) + "+" + TermText(t));
      JoinRegroup(TermText(ts[0]), Print(ts[1..]), TermText(t), "+");
    } else {
      assert u[0] == ts[0] && u[1..] == [t];
    }
  }

  lemma JoinRegroup(x: string, y: string, z: string, sep: string)
    ensures x + sep + (y + sep + z) == (x + sep + y) + sep + z
  {
  }

  lemma PrintCons(t: Term, ts: seq<Term>)
    requires ts != []
    ensures Print([t] + ts) == TermText(t) + "+" + Print(ts)
  {
    assert ([t] + ts)[1..] == ts;
  }

  lemma RefText(a: string, p: string, r: string)
    requires "\"" + r + "\"" == p
    ensures "\"" + ("\"+_" + a + "+\"" + r) + "\"" == TermText(Lit("")) + "+" + (TermText(Var(a)) + "+" + p)
  {
    calc {
      "\"" + ("\"+_" + a + "+\"" + r) + "\"";
      ("\"\"+_" + a + "+") + ("\"" + r + "\"");
      ("\"\"+_" + a + "+") + p;
      "\"\"" + "+" + ("_" + a + "+" + p);
    }
  }

  lemma QuotedRenderRef(a: string, rest: seq<Term>, r: string)
    requires |rest| >= 1 && "\"" + r + "\"" == Print(rest)
    ensures "\"" + ("\"+_" + a + "+\"" + r) + "\"" == Print([Lit(""), Var(a)] + rest)
  {
    PrintRef(a, rest);
    RefText(a, Print(rest), r);
  }

  lemma PrintRef(a: string, rest: seq<Term>)
    requires |rest| >= 1
    ensures Print([Lit(""), Var(a)] + rest) == TermText(Lit("")) + "+" + (TermText(Var(a)) + "+" + Print(rest))
  {
    assert [Lit(""), Var(a)] + rest == [Lit("")] + ([Var(a)] + rest);
    PrintCons(Lit(""), [Var(a)] + rest);
    PrintCons(Var(a), rest);
  }

  lemma CharText(c: char, s0: string, tail: string, r: string)
    requires "\"" + r + "\"" == "\"" + s0 + "\"" + tail
    ensures "\"" + ([c] + r) + "\"" == "\"" + ([c] + s0) + "\"" + tail
  {
    assert ("\"" + r + "\"")[1..] == r + "\"";
    assert ("\"" + s0 + "\"" + tail)[1..] == s0 + "\"" + tail;
    calc {
      "\"" + ([c] + r) + "\"";
      "\"" + [c] + (r + "\"");
      "\"" + [c] + (s0 + "\"" + tail);
      "\"" + ([c] + s0) + "\"" + tail;
    }
  }

  /** The text after the first term: nothing, or `+` and the rest. */
  function TailText(ts: seq<Term>): string {
    if ts == [] then "" else "+" + Print(ts)
  }

  lemma PrintHead(ts: seq<Term>)
    requires ts != [] && ts[0].Lit?
    ensures Print(ts) == "\"" + ts[0].s + "\"" + TailText(ts[1..])
  {
  }

  lemma QuotedRenderChar(c: char, rest: seq<Term>, r: string)
    requires |rest| >= 1 && rest[0].Lit? && "\"" + r + "\"" == Print(rest)
    ensures "\"" + ([c] + r) + "\"" == Print([Lit([c] + rest[0].s)] + rest[1..])
  {
    var ts := [Lit([c] + rest[0].s)] + rest[1..];
    PrintHead(rest);
    PrintHead(ts);
    assert ts[1..] == rest[1..];
    CharText(c, rest[0].s, TailText(rest[1..]), r);
  }

  /** After the replace loop the quoted name is exactly the joined terms. */
  lemma {:induction false} QuotedRender(toks: seq<NameToken>)
    ensures "\"" + Render(toks) + "\"" == Print(Terms(toks))
  {
    if toks != [] {
      QuotedRender(toks[1..]);
      if toks[0].Ref? {
        QuotedRenderRef(toks[0].arg, Terms(toks[1..]), Render(toks[1..]));
      } else {
        QuotedRenderChar(toks[0].c, Terms(toks[1..]), Render(toks[1..]));
      }
    }
  }

  /** `startswith('""+')` holds exactly when the first term is an empty
    * literal followed by more terms, and cutting three characters then
    * drops that term. */
  lemma StripFront(ts: seq<Term>)
    requires |ts| >= 1 && ts[0].Lit? && TermsOk(ts)
    ensures ("\"\"+" <= Print(ts)) <==> (|ts| > 1 && ts[0] == Lit(""))
    ensures |ts| > 1 && ts[0] == Lit("") ==> Print(ts)[3..] == Print(ts[1..])
    ensures CutFront(Print(ts)) == Print(if |ts| > 1 && ts[0] == Lit("") then ts[1..] else ts)
  {
    var p := Print(ts);
    assert TermOk(ts[0]);
    var s := ts[0].s;
    if |ts| == 1 {
      assert p == "\"" + s + "\"";
      if s != [] {
        assert p[1] == s[0];
      }
    } else {
      assert p == "\"" + s + "\"" + "+" + Print(ts[1..]);
      if s != [] {
        assert p[1] == s[0];
      } else {
        assert p == "\"\"+" + Print(ts[1..]);
      }
    }
  }

  /** The last term's text ends in `+""` after a `+` exactly when the term
    * is an empty literal, and never on its own. */
  lemma LastTermEnding(q: string, t: Term)
    requires TermOk(t)
    ensures var p := q + "+" + TermText(t);
      (|p| >= 3 && p[|p| - 3..] == "+\"\"") <==> t == Lit("")
    ensures CutBack(q + "+" + TermText(t)) == if t == Lit("") then q else q + "+" + TermText(t)
    ensures var p := TermText(t);
      !(|p| >= 3 && p[|p| - 3..] == "+\"\"")
    ensures CutBack(TermText(t)) == TermText(t)
  {
    if t == Lit("") {
      assert q + "+" + TermText(t) == q + "+\"\"";
      EmptyEnding(q);
      NoEnding(TermText(t));
    } else {
      TermTextEnd(t);
      LastTwo(q + "+", TermText(t));
      NoEnding(q + "+" + TermText(t));
      NoEnding(TermText(t));
    }
  }

  /** Only the empty literal's text ends in two quotes. */
  lemma TermTextEnd(t: Term)
    requires TermOk(t) && t != Lit("")
    ensures var p := TermText(t); |p| >= 2 && (p[|p| - 1] != '"' || p[|p| - 2] != '"')
  {
    var p := TermText(t);
    match t
    case Lit(s) =>
      assert p[|p| - 2] == s[|s| - 1];
    case Var(a) =>
      assert p[|p| - 1] == a[|a| - 1];
  }

  lemma LastTwo(x: string, y: string)
    requires |y| >= 2
    ensures (x + y)[|x + y| - 1] == y[|y| - 1] && (x + y)[|x + y| - 2] == y[|y| - 2]
  {
  }

  /** A text ending in `+""` loses exactly those three characters. */
  lemma EmptyEnding(q: string)
    ensures var p := q + "+\"\""; |p| >= 3 && p[|p| - 3..] == "+\"\""
    ensures CutBack(q + "+\"\"") == q
  {
  }

  /** A text whose last two characters are not both quotes keeps its end. */
  lemma NoEnding(p: string)
    requires |p| < 3 || p[|p| - 1] != '"' || p[|p| - 2] != '"'
    ensures !(|p| >= 3 && p[|p| - 3..] == "+\"\"")
    ensures CutBack(p) == p
  {
    if |p| >= 3 {
      assert p[|p| - 3..][2] == p[|p| - 1];
      assert p[|p| - 3..][1] == p[|p| - 2];
    }
  }

  /** `endswith('+""')` holds exactly when the last term is an empty literal
    * preceded by more terms, and cutting three characters then drops it. */
  lemma StripBack(ts: seq<Term>)
    requires |ts| >= 1 && TermsOk(ts)
    ensures (|Print(ts)| >= 3 && Print(ts)[|Print(ts)| - 3..] == "+\"\"")
        <==> (|ts| > 1 && ts[|ts| - 1] == Lit(""))
    ensures CutBack(Print(ts)) == Print(if |ts| > 1 && ts[|ts| - 1] == Lit("") then ts[..|ts| - 1] else ts)
  {
    var last := ts[|ts| - 1];
    assert TermOk(last);
    if |ts| > 1 {
      var init := ts[..|ts| - 1];
      assert ts == init + [last];
      PrintSnoc(init, last);
      LastTermEnding(Print(init), last);
    } else {
      assert Print(ts) == TermText(last);
      LastTermEnding("", last);
    }
  }

  lemma {:induction false} EvalTerms(toks: seq<NameToken>, env: string -> string)
    ensures Eval(Terms(toks), env) == Substitute(toks, env)
  {
    if toks != [] {
      EvalTerms(toks[1..], env);
      var rest := Terms(toks[1..]);
      if toks[0].Ref? {
        EvalRef(toks[0].arg, rest, env);
      } else {
        EvalChar(toks[0].c, rest, env);
      }
    }
  }

  lemma EvalRef(a: string, rest: seq<Term>, env: string -> string)
    ensures Eval([Lit(""), Var(a)] + rest, env) == env(a) + Eval(rest, env)
  {
    var ts := [Lit(""), Var(a)] + rest;
    assert ts[1..] == [Var(a)] + rest;
    assert ts[1..][1..] == rest;
  }

  lemma EvalChar(c: char, rest: seq<Term>, env: string -> string)
    requires |rest| >= 1 && rest[0].Lit?
    ensures Eval([Lit([c] + rest[0].s)] + rest[1..], env) == [c] + Eval(rest, env)
  {
    var ts := [Lit([c] + rest[0].s)] + rest[1..];
    assert ts[1..] == rest[1..];
    assert Eval(rest, env) == rest[0].s + Eval(rest[1..], env);
  }

  lemma {:induction false} EvalSnoc(ts: seq<Term>, t: Term, env: string -> string)
    ensures Eval(ts + [t], env) == Eval(ts, env) + Eval([t], env)
  {
    if ts != [] {
      assert (ts + [t])[1..] == ts[1..] + [t];
      EvalSnoc(ts[1..], t, env);
    } else {
      assert ts + [t] == [t];
    }
  }

  lemma EvalTrim(ts: seq<Term>, env: string -> string)
    requires |ts| >= 1
    ensures Eval(Trim(ts), env) == Eval(ts, env)
  {
    var front := if |ts| > 1 && ts[0] == Lit("") then ts[1..] else ts;
    if |ts| > 1 && ts[0] == Lit("") {
      EvalDropFront(ts, env);
    }
    if |front| > 1 && front[|front| - 1] == Lit("") {
      EvalDropBack(front, env);
    }
  }

  lemma EvalDropFront(ts: seq<Term>, env: string -> string)
    requires ts != [] && ts[0] == Lit("")
    ensures Eval(ts[1..], env) == Eval(ts, env)
  {
    assert Eval(ts, env) == "" + Eval(ts[1..], env);
  }

  lemma EvalDropBack(ts: seq<Term>, env: string -> string)
    requires ts != [] && ts[|ts| - 1] == Lit("")
    ensures Eval(ts[..|ts| - 1], env) == Eval(ts, env)
  {
    var init := ts[..|ts| - 1];
    assert ts == init + [Lit("")];
    EvalSnoc(init, Lit(""), env);
    assert Eval([Lit("")], env) == "";
  }

  lemma Associative(x: string, y: string, z: string)
    ensures x + y + z == x + (y + z)
  {
  }

  /** One pass of the loop in `string_name` on the quoted name. */
  lemma ReplaceStep(toks: seq<NameToken>, done: set<string>, a: string)
    requires WellFormed(toks) && ArgBody(a)
    ensures ReplaceAll("\"" + RenderPartial(toks, done) + "\"", "{" + a + "}", "\"+_" + a + "+\"")
         == "\"" + RenderPartial(toks, done + {a}) + "\""
  {
    var q := "\"";
    ReplaceOneArgument(toks, done, a, q);
    ReplaceSkips(q, RenderPartial(toks, done) + q, "{" + a + "}", "\"+_" + a + "+\"");
    Associative(q, RenderPartial(toks, done), q);
    Associative(q, RenderPartial(toks, done + {a}), q);
  }

  /** `if s.startswith('""+'): s = s[3:]`. */
  function CutFront(p: string): string {
    if "\"\"+" <= p then p[3..] else p
  }

  /** `if s.endswith('+""'): s = s[:-3]`. */
  function CutBack(q: string): string {
    if |q| >= 3 && q[|q| - 3..] == "+\"\"" then q[..|q| - 3] else q
  }

  /** The two `startswith`/`endswith` cuts at the end of `string_name` trim
    * the joined terms. */
  lemma TrimSteps(ts: seq<Term>)
    requires |ts| >= 1 && ts[0].Lit? && TermsOk(ts)
    ensures CutBack(CutFront(Print(ts))) == Print(Trim(ts))
  {
    var front := if |ts| > 1 && ts[0] == Lit("") then ts[1..] else ts;
    var back := if |front| > 1 && front[|front| - 1] == Lit("") then front[..|front| - 1] else front;
    assert Trim(ts) == back;
    StripFront(ts);
    assert CutFront(Print(ts)) == Print(front);
    StripBack(front);
    assert CutBack(Print(front)) == Print(back);
  }

  /** What `string_name` starts from: a validated name tokenizes cleanly,
    * reads back as itself, and names only well-formed arguments. */
  lemma StringNameStart(name: string)
    requires MatchesVariable(name)
    ensures WellFormed(Tokenize(name)) && name == RenderPartial(Tokenize(name), {})
    ensures forall i :: 0 <= i < |Refs(Tokenize(name))| ==> ArgBody(Refs(Tokenize(name))[i])
  {
    ValidNameWellFormed(name);
    DetokenizeTokenize(name);
    RefsWellFormed(Tokenize(name));
  }

  /** The cuts applied to the fully replaced name give the trimmed terms. */
  lemma StringNameFinish(name: string)
    requires MatchesVariable(name)
    ensures CutBack(CutFront("\"" + Render(Tokenize(name)) + "\"")) == StringNameOf(name)
  {
    var toks := Tokenize(name);
    StringNameStart(name);
    QuotedRender(toks);
    TermsOfWellFormed(toks);
    TrimSteps(Terms(toks));
  }

  /** The name quoted, with the arguments in `done` replaced. */
  function Quoted(toks: seq<NameToken>, done: set<string>): string {
    "\"" + RenderPartial(toks, done) + "\""
  }

  /** One pass of the loop in `string_name`, as the loop writes it: the
    * replacement is built from the match with its braces cut off. */
  lemma ReplaceMatch(toks: seq<NameToken>, done: set<string>, m: string, a: string)
    requires WellFormed(toks) && ArgBody(a) && m == "{" + a + "}"
    ensures ReplaceAll(Quoted(toks, done), m, "\"+_" + m[1..|m| - 1] + "+\"") == Quoted(toks, done + {a})
  {
    assert m[1..|m| - 1] == a;
    ReplaceStep(toks, done, a);
  }

  /** The last two steps of `string_name`: drop a leading `""+` and a
    * trailing `+""`. */
  method StripEmptyEnds(s: string) returns (r: string)
    ensures r == CutBack(CutFront(s))
    ensures |r| <= |s|
  {
    r := s;
    if "\"\"+" <= r {
      r := r[3..];
    }
    if |r| >= 3 && r[|r| - 3..] == "+\"\"" {
      r := r[..|r| - 3];
    }
  }

  /** The replace loop of `string_name`: each placeholder text found becomes
    * `"+_arg+"`, and once all are handled every placeholder is replaced. */
  method ReplacePlaceholders(quoted: string, matches: seq<string>, ghost toks: seq<NameToken>) returns (r: string)
    requires WellFormed(toks) && quoted == Quoted(toks, {})
    requires forall j :: 0 <= j < |Refs(toks)| ==> ArgBody(Refs(toks)[j])
    requires |matches| == |Refs(toks)|
    requires forall j :: 0 <= j < |matches| ==> matches[j] == "{" + Refs(toks)[j] + "}"
    ensures r == "\"" + Render(toks) + "\""
  {
    ghost var refs := Refs(toks);
    r := quoted;
    ghost var done: set<string> := {};
    for i := 0 to |matches|
      invariant forall j :: 0 <= j < i ==> refs[j] in done
      invariant r == Quoted(toks, done)
    {
      var m := matches[i];
      ReplaceMatch(toks, done, m, refs[i]);
      r := ReplaceAll(r, m, "\"+_" + m[1..|m| - 1] + "+\"");
      done := done + {refs[i]};
    }
    RefsSubset(toks, done);
  }

  /** string_name: quote the name, replace each placeholder found by
    * `_re_replace.findall` with `"+_arg+"`, then strip an empty literal at
    * either end. */
  method StringName(name: string) returns (r: string)
    requires MatchesVariable(name)
    ensures r == StringNameOf(name)
  {
    StringNameStart(name);
    var matches := FindAll(name);
    FindAllRefs(name);
    r := ReplacePlaceholders("\"" + name + "\"", matches, Tokenize(name));
    StringNameFinish(name);
    r := StripEmptyEnds(r);
  }

  lemma {:induction false} RefsWellFormed(toks: seq<NameToken>)
    requires WellFormed(toks)
    ensures forall i :: 0 <= i < |Refs(toks)| ==> ArgBody(Refs(toks)[i])
  {
    if toks != [] {
      assert TokenOk(toks[0]);
      assert WellFormed(toks[1..]);
      RefsWellFormed(toks[1..]);
    }
  }

  /** The C++ expression that `string_name` produces evaluates, once each
    * `_arg` member holds its argument's value, to the field name with every
    * placeholder filled in: `{name}.x` with `name` = "earth" names
    * `earth.x`. */
  lemma StringNameMeaning(name: string, env: string -> string)
    ensures Eval(Trim(Terms(Tokenize(name))), env) == Substitute(Tokenize(name), env)
  {
    EvalTrim(Terms(Tokenize(name)), env);
    EvalTerms(Tokenize(name), env);
  }

  /** A name without placeholders is quoted verbatim. */
  lemma {:induction false} PlainTerms(toks: seq<NameToken>)
    requires forall i :: 0 <= i < |toks| ==> toks[i].Char?
    ensures Terms(toks) == [Lit(Render(toks))]
  {
    if toks != [] {
      PlainTerms(toks[1..]);
    }
  }

  lemma PlainStringName(name: string)
    requires MatchesVariable(name)
    requires forall i :: 0 <= i < |name| ==> name[i] != '{'
    ensures StringNameOf(name) == "\"" + name + "\""
  {
    var toks := Tokenize(name);
    NoPlaceholders(name);
    PlainTerms(toks);
    DetokenizeTokenize(name);
    RefsSubset(toks, {});
  }

  lemma {:induction false} NoPlaceholders(s: string)
    requires forall i :: 0 <= i < |s| ==> s[i] != '{'
    ensures forall i :: 0 <= i < |Tokenize(s)| ==> Tokenize(s)[i].Char?
    ensures Refs(Tokenize(s)) == []
    decreases |s|
  {
    if s != [] {
      NoPlaceholders(s[1..]);
    }
  }
}
