/**
 Subjects and subject patterns: the text a client sends, the tokens it splits into,
 and when a pattern matches a subject.
 */
module Subjects {
  import opened Wrappers
  import opened Bytes

  const MAX_LEN: nat := 512
  const MAX_TOKENS: nat := 32

  datatype CoreError =
    | Empty
    | TooLong(len: nat, limit: nat)
    | ContainsWildcard
    | TooManyTokens(count: nat, limit: nat)
    | EmptyToken
    | MultiWildcardNotLast

  datatype Subject = Subject(raw: string, tokens: seq<string>)

  datatype PatternToken = Literal(text: string) | SingleWildcard | MultiWildcard

  datatype SubjectPattern = SubjectPattern(raw: string, tokens: seq<PatternToken>)

  // ---- text ----

  /** The White_Space property of the Unicode standard, which `str::trim` uses. */
  predicate IsWhitespace(c: char) {
    var n := c as int;
    || 0x09 <= n <= 0x0D || n == 0x20 || n == 0x85 || n == 0xA0 || n == 0x1680
    || 0x2000 <= n <= 0x200A || n == 0x2028 || n == 0x2029 || n == 0x202F
    || n == 0x205F || n == 0x3000
  }

  function Trim(s: string): (r: string)
    ensures r != [] ==> !IsWhitespace(r[0]) && !IsWhitespace(r[|r| - 1])
    ensures s != [] && !IsWhitespace(s[0]) && !IsWhitespace(s[|s| - 1]) ==> r == s
  {
    if s == [] then []
    else if IsWhitespace(s[0]) then Trim(s[1..])
    else if IsWhitespace(s[|s| - 1]) then Trim(s[..|s| - 1])
    else s
  }

  ghost predicate Blank(s: string) {
    forall i :: 0 <= i < |s| ==> IsWhitespace(s[i])
  }

  lemma {:induction false} FrontBlank(s: string, i: nat, j: nat)
    requires s != "" && IsWhitespace(s[0]) && i <= j < |s| && Blank(s[1..][..i]) && Blank(s[1..][j..])
    ensures s[1..][i..j] == s[i + 1..j + 1] && Blank(s[..i + 1]) && Blank(s[j + 1..])
  {
    hide IsWhitespace;
    assert s[1..][j..] == s[j + 1..] && s[..i + 1] == [s[0]] + s[1..][..i];
  }

  lemma {:induction false} EndBlank(s: string, i: nat, j: nat)
    requires s != "" && IsWhitespace(s[|s| - 1]) && i <= j < |s|
    requires Blank(s[..|s| - 1][..i]) && Blank(s[..|s| - 1][j..])
    ensures s[..|s| - 1][i..j] == s[i..j] && Blank(s[..i]) && Blank(s[j..])
  {
    hide IsWhitespace;
    assert s[..|s| - 1][..i] == s[..i] && s[j..] == s[..|s| - 1][j..] + [s[|s| - 1]];
  }

  /** Trimming cuts off a blank front and a blank end, and what is left, if anything, has neither. */
  lemma {:induction false} TrimCuts(s: string) returns (i: nat, j: nat)
    ensures i <= j <= |s| && Trim(s) == s[i..j] && Blank(s[..i]) && Blank(s[j..])
    ensures i == j || (!IsWhitespace(s[i]) && !IsWhitespace(s[j - 1]))
  {
    hide IsWhitespace;
    if s == "" {
      i, j := 0, 0;
    } else if IsWhitespace(s[0]) {
      i, j := TrimCuts(s[1..]);
      FrontBlank(s, i, j);
      i, j := i + 1, j + 1;
    } else if IsWhitespace(s[|s| - 1]) {
      i, j := TrimCuts(s[..|s| - 1]);
      EndBlank(s, i, j);
    } else {
      i, j := 0, |s|;
      assert s[0..|s|] == s;
    }
  }

  predicate Trimmed(s: string) {
    Trim(s) == s
  }

  /** `str::len`: the number of UTF-8 bytes. */
  function Utf8Len(s: string): nat {
    if s == [] then 0
    else
      var n := s[0] as int;
      (if n < 0x80 then 1 else if n < 0x800 then 2 else if n < 0x10000 then 3 else 4) + Utf8Len(s[1..])
  }

  /** A character in UTF-8, section 3 of RFC 3629. */
  function Utf8(c: char): seq<byte> {
    var n := c as int;
    if n < 0x80 then [n]
    else if n < 0x800 then [0xC0 + n / 0x40, 0x80 + n % 0x40]
    else if n < 0x1_0000 then [0xE0 + n / 0x1000, 0x80 + n / 0x40 % 0x40, 0x80 + n % 0x40]
    else [0xF0 + n / 0x4_0000, 0x80 + n / 0x1000 % 0x40, 0x80 + n / 0x40 % 0x40, 0x80 + n % 0x40]
  }

  function Utf8All(s: string): seq<byte> {
    if s == [] then [] else Utf8(s[0]) + Utf8All(s[1..])
  }

  /** The code point behind a lead byte and what follows it. */
  function CodePoint(t: seq<byte>): int
    requires |t| >= 4
  {
    var a: int, b: int, c: int, d: int := t[0], t[1], t[2], t[3];
    if a < 0x80 then a
    else if a < 0xE0 then (a - 0xC0) * 0x40 + (b - 0x80)
    else if a < 0xF0 then (a - 0xE0) * 0x1000 + (b - 0x80) * 0x40 + (c - 0x80)
    else (a - 0xF0) * 0x4_0000 + (b - 0x80) * 0x1000 + (c - 0x80) * 0x40 + (d - 0x80)
  }

  /** A character is read back from its bytes, so they are no fewer than it needs. */
  lemma {:induction false} Utf8ReadsBack(c: char, rest: seq<byte>)
    requires |rest| >= 3
    ensures CodePoint(Utf8(c) + rest) == c as int
  {
    var n := c as int;
    assert n / 0x40 / 0x40 == n / 0x1000 && n / 0x1000 / 0x40 == n / 0x4_0000;
  }

  /** The length is that of the encoding. */
  lemma {:induction false} Utf8LenIs(s: string)
    ensures Utf8Len(s) == |Utf8All(s)|
  {
    if s != "" {
      Utf8LenIs(s[1..]);
    }
  }

  /** `str::split('.')`. */
  function Split(s: string): (ts: seq<string>)
    ensures |ts| >= 1
  {
    if s == [] then [""]
    else
      var rest := Split(s[1..]);
      if s[0] == '.' then [""] + rest
      else [[s[0]] + rest[0]] + rest[1..]
  }

  function Join(ts: seq<string>): string
    requires |ts| >= 1
  {
    if |ts| == 1 then ts[0] else ts[0] + "." + Join(ts[1..])
  }

  /** Splitting loses nothing: joining the tokens with dots gives the text back. */
  lemma {:induction false} JoinSplit(s: string)
    ensures Join(Split(s)) == s
  {
    if s != [] {
      var rest := Split(s[1..]);
      JoinSplit(s[1..]);
      if s[0] == '.' {
        assert ([""] + rest)[1..] == rest;
      } else if |rest| > 1 {
        assert ([[s[0]] + rest[0]] + rest[1..])[1..] == rest[1..];
        calc {
          Join(Split(s));
          ([s[0]] + rest[0]) + "." + Join(rest[1..]);
          [s[0]] + (rest[0] + "." + Join(rest[1..]));
        }
      }
    }
  }

  /** And no other list of tokens without dots does: splitting a joined list gives the list back. */
  lemma {:induction false} SplitJoin(ts: seq<string>)
    requires |ts| >= 1 && forall i :: 0 <= i < |ts| ==> '.' !in ts[i]
    ensures Split(Join(ts)) == ts
  {
    if |ts| == 1 {
      SplitFirst(ts[0], "");
    } else {
      SplitJoin(ts[1..]);
      SplitFirst(ts[0], Join(ts[1..]));
    }
  }

  lemma {:induction false} SplitInjective(s: string, t: string)
    ensures Split(s) == Split(t) <==> s == t
  {
    JoinSplit(s);
    JoinSplit(t);
  }

  lemma {:induction false} SplitCharacters(s: string, k: nat, c: char)
    requires k < |Split(s)| && c in Split(s)[k]
    ensures c in s && c != '.'
  {
    if s != [] {
      var rest := Split(s[1..]);
      if s[0] == '.' {
        if k > 0 {
          SplitCharacters(s[1..], k - 1, c);
        }
      } else if k > 0 {
        SplitCharacters(s[1..], k, c);
      } else if c != s[0] {
        SplitCharacters(s[1..], 0, c);
      }
    }
  }

  // ---- subjects ----

  ghost predicate ValidToken(t: string) {
    t != "" && '.' !in t && '*' !in t && '>' !in t
  }

  ghost predicate ValidSubject(s: Subject) {
    && s.tokens == Split(s.raw)
    && |s.tokens| <= MAX_TOKENS
    && Utf8Len(s.raw) <= MAX_LEN
    && Trimmed(s.raw)
    && forall i :: 0 <= i < |s.tokens| ==> ValidToken(s.tokens[i])
  }

  /** `Subject::parse`. */
  function ParseSubject(input: string): (r: Result<Subject, CoreError>) {
    var trimmed := Trim(input);
    if trimmed == "" then Failure(Empty)
    else if Utf8Len(trimmed) > MAX_LEN then Failure(TooLong(Utf8Len(trimmed), MAX_LEN))
    else if '*' in trimmed || '>' in trimmed then Failure(ContainsWildcard)
    else
      var tokens := Split(trimmed);
      if |tokens| > MAX_TOKENS then Failure(TooManyTokens(|tokens|, MAX_TOKENS))
      else if "" in tokens then Failure(EmptyToken)
      else Success(Subject(trimmed, tokens))
  }

  /** A parsed subject is valid, and it is what its own text parses to. */
  lemma {:induction false} ParsedSubjectIsValid(input: string)
    requires ParseSubject(input).Success?
    ensures ValidSubject(ParseSubject(input).value)
    ensures ParseSubject(ParseSubject(input).value.raw) == ParseSubject(input)
    ensures ParseSubject(input).value.raw == Trim(input)
  {
    var s := ParseSubject(input).value;
    forall i | 0 <= i < |s.tokens| ensures ValidToken(s.tokens[i]) {
      forall c | c in s.tokens[i] ensures c in s.raw && c != '.' {
        SplitCharacters(s.raw, i, c);
      }
    }
  }

  /** Every character but the dots is in some token. */
  lemma {:induction false} SplitKeeps(s: string, c: char) returns (k: nat)
    requires c in s && c != '.'
    ensures k < |Split(s)| && c in Split(s)[k]
  {
    if s[0] == c {
      k := 0;
    } else {
      k := SplitKeeps(s[1..], c);
      if s[0] == '.' {
        k := k + 1;
      }
    }
  }

  /** Every valid subject is what its text parses to. */
  lemma {:induction false} ValidSubjectParses(s: Subject)
    requires ValidSubject(s)
    ensures ParseSubject(s.raw) == Success(s)
  {
    assert ValidToken(s.tokens[0]);
    forall c | c in s.raw ensures c != '*' && c != '>' {
      if c != '.' {
        var k := SplitKeeps(s.raw, c);
        assert ValidToken(s.tokens[k]);
      }
    }
    forall t | t in s.tokens ensures t != "" {
    }
  }

  /** So a text parses if and only if some valid subject has its trimmed text. */
  lemma {:induction false} ParsesIff(input: string)
    ensures ParseSubject(input).Success? <==> exists s :: ValidSubject(s) && s.raw == Trim(input)
  {
    if ParseSubject(input).Success? {
      ParsedSubjectIsValid(input);
    }
    if s :| ValidSubject(s) && s.raw == Trim(input) {
      ValidSubjectParses(s);
    }
  }

  /** The complaint is true of the text. */
  ghost predicate Justified(input: string, e: CoreError) {
    match e
    case Empty => Blank(input)
    case TooLong(len, limit) => len == Utf8Len(Trim(input)) > limit == 512
    case ContainsWildcard => exists i :: 0 <= i < |input| && (input[i] == '*' || input[i] == '>')
    case TooManyTokens(count, limit) => count == |Split(Trim(input))| > limit == 32
    case EmptyToken => "" in Split(Trim(input))
    case MultiWildcardNotLast => ">" in Split(Trim(input))[..|Split(Trim(input))| - 1]
  }

  lemma {:induction false} BlankTrims(input: string)
    ensures Trim(input) == "" <==> Blank(input)
  {
    var i, j := TrimCuts(input);
    if i == j {
      assert input == input[..i] + input[j..];
    } else {
      assert !IsWhitespace(input[i]);
    }
  }

  lemma {:induction false} TrimKeeps(input: string, c: char)
    requires c in Trim(input)
    ensures exists i :: 0 <= i < |input| && input[i] == c
  {
    var i, j := TrimCuts(input);
    var k :| 0 <= k < |Trim(input)| && Trim(input)[k] == c;
    assert input[i + k] == c;
  }

  /** Whatever a refused text is refused for is wrong with it. */
  lemma {:induction false} RefusalIsJustified(input: string)
    ensures ParseSubject(input).Failure? ==> Justified(input, ParseSubject(input).error)
  {
    BlankTrims(input);
    if '*' in Trim(input) {
      TrimKeeps(input, '*');
    } else if '>' in Trim(input) {
      TrimKeeps(input, '>');
    }
  }

  // ---- patterns ----

  function Classify(t: string): PatternToken {
    if t == "*" then SingleWildcard else if t == ">" then MultiWildcard else Literal(t)
  }

  function TokenText(t: PatternToken): string {
    match t
    case Literal(s) => s
    case SingleWildcard => "*"
    case MultiWildcard => ">"
  }

  /** The token strings `RoutingEngine::insert` files a pattern under. */
  function Texts(ts: seq<PatternToken>): (r: seq<string>)
    ensures |r| == |ts|
    ensures forall i :: 0 <= i < |ts| ==> r[i] == TokenText(ts[i])
  {
    seq(|ts|, i requires 0 <= i < |ts| => TokenText(ts[i]))
  }

  predicate HasMulti(ts: seq<PatternToken>) {
    MultiWildcard in ts
  }

  predicate HasWildcard(ts: seq<PatternToken>) {
    SingleWildcard in ts || MultiWildcard in ts
  }

  /** `>` stands only at the end. */
  ghost predicate MultiOnlyLast(ts: seq<PatternToken>) {
    forall i :: 0 <= i < |ts| && ts[i].MultiWildcard? ==> i == |ts| - 1
  }

  ghost predicate ValidPattern(p: SubjectPattern) {
    && Texts(p.tokens) == Split(p.raw)
    && |p.tokens| <= MAX_TOKENS
    && Utf8Len(p.raw) <= MAX_LEN
    && Trimmed(p.raw)
    && MultiOnlyLast(p.tokens)
    && (forall i :: 0 <= i < |p.tokens| ==> TokenText(p.tokens[i]) != "")
    && (forall i :: 0 <= i < |p.tokens| ==> Classify(TokenText(p.tokens[i])) == p.tokens[i])
  }

  /** The first complaint `SubjectPattern::parse` makes about tokens `i..`, if any. */
  function TokenComplaint(ts: seq<string>, i: nat): (e: Option<CoreError>)
    requires i <= |ts|
    ensures e.None? <==> forall k :: i <= k < |ts| ==> ts[k] != "" && (ts[k] == ">" ==> k == |ts| - 1)
    decreases |ts| - i
  {
    if i == |ts| then None
    else if ts[i] == "" then Some(EmptyToken)
    else if ts[i] == ">" && i != |ts| - 1 then Some(MultiWildcardNotLast)
    else TokenComplaint(ts, i + 1)
  }

  /** What is wrong with a pattern text, in the order the parser looks; `None` when it is acceptable. */
  function PatternComplaint(input: string): Option<CoreError> {
    var trimmed := Trim(input);
    if trimmed == "" then Some(Empty)
    else if Utf8Len(trimmed) > MAX_LEN then Some(TooLong(Utf8Len(trimmed), MAX_LEN))
    else if |Split(trimmed)| > MAX_TOKENS then Some(TooManyTokens(|Split(trimmed)|, MAX_TOKENS))
    else TokenComplaint(Split(trimmed), 0)
  }

  /** The pattern with the tokens of its text. */
  function PatternOf(text: string): SubjectPattern {
    SubjectPattern(text, seq(|Split(text)|, i requires 0 <= i < |Split(text)| => Classify(Split(text)[i])))
  }

  /** A text is acceptable if and only if some valid pattern has its trimmed text. */
  lemma {:induction false} AcceptableIff(input: string)
    ensures PatternComplaint(input).None? <==> exists p :: ValidPattern(p) && p.raw == Trim(input)
  {
    hide Trim;
    hide Utf8Len;
    var ts := Split(Trim(input));
    if PatternComplaint(input).None? {
      PatternFrom(input, PatternOf(Trim(input)).tokens);
    }
    if p :| ValidPattern(p) && p.raw == Trim(input) {
      forall k | 0 <= k < |ts| ensures ts[k] != "" && (ts[k] == ">" ==> k == |ts| - 1) {
        assert Texts(p.tokens)[k] == ts[k] && Classify(ts[k]) == p.tokens[k];
      }
      assert ts[0] != "" && Split("") == [""];
    }
  }

  lemma {:induction false} TokenComplaintIsJustified(ts: seq<string>, i: nat)
    requires i <= |ts| && TokenComplaint(ts, i).Some?
    ensures TokenComplaint(ts, i).value == EmptyToken ==> "" in ts
    ensures TokenComplaint(ts, i).value == MultiWildcardNotLast ==> |ts| > 0 && ">" in ts[..|ts| - 1]
    ensures TokenComplaint(ts, i).value in {EmptyToken, MultiWildcardNotLast}
    decreases |ts| - i
  {
    if ts[i] == ">" && i != |ts| - 1 {
      assert ts[..|ts| - 1][i] == ">";
    } else if ts[i] != "" {
      TokenComplaintIsJustified(ts, i + 1);
    }
  }

  /** Whatever a refused pattern is refused for is wrong with it. */
  lemma {:induction false} ComplaintIsJustified(input: string)
    ensures PatternComplaint(input).Some? ==> Justified(input, PatternComplaint(input).value)
  {
    BlankTrims(input);
    var ts := Split(Trim(input));
    if TokenComplaint(ts, 0).Some? {
      TokenComplaintIsJustified(ts, 0);
    }
  }

  lemma {:induction false} PatternFrom(input: string, tokens: seq<PatternToken>)
    requires PatternComplaint(input).None? && |tokens| == |Split(Trim(input))|
    requires forall k :: 0 <= k < |tokens| ==> tokens[k] == Classify(Split(Trim(input))[k])
    ensures ValidPattern(SubjectPattern(Trim(input), tokens))
    ensures forall p :: ValidPattern(p) && p.raw == Trim(input) ==> p == SubjectPattern(Trim(input), tokens)
  {
    hide Trim;
    hide Split;
    hide Utf8Len;
    var q := SubjectPattern(Trim(input), tokens);
    TrimTwice(input);
    assert Texts(tokens) == Split(Trim(input));
    forall p | ValidPattern(p) && p.raw == q.raw ensures p == q {
      PatternTextInjective(p, q);
    }
  }

  lemma {:induction false} TrimTwice(input: string)
    ensures Trimmed(Trim(input))
  {
  }

  /** `SubjectPattern::parse`. */
  method ParsePattern(input: string) returns (r: Result<SubjectPattern, CoreError>)
    ensures r.Failure? <==> PatternComplaint(input).Some?
    ensures r.Failure? ==> r.error == PatternComplaint(input).value && Justified(input, r.error)
    ensures r.Success? ==> r.value.raw == Trim(input) && ValidPattern(r.value)
    ensures forall p :: ValidPattern(p) && p.raw == Trim(input) ==> r == Success(p)
  {
    hide Utf8Len;
    hide Trim;
    hide Split;
    hide Justified;
    hide ValidPattern;
    AcceptableIff(input);
    ComplaintIsJustified(input);
    var trimmed := Trim(input);
    if trimmed == "" {
      return Failure(Empty);
    }
    if Utf8Len(trimmed) > MAX_LEN {
      return Failure(TooLong(Utf8Len(trimmed), MAX_LEN));
    }
    var rawTokens := Split(trimmed);
    if |rawTokens| > MAX_TOKENS {
      return Failure(TooManyTokens(|rawTokens|, MAX_TOKENS));
    }
    var tokens: seq<PatternToken> := [];
    for i := 0 to |rawTokens|
      invariant |tokens| == i
      invariant forall k :: 0 <= k < i ==> tokens[k] == Classify(rawTokens[k]) && rawTokens[k] != ""
      invariant forall k :: 0 <= k < i && tokens[k].MultiWildcard? ==> k == |rawTokens| - 1
      invariant TokenComplaint(rawTokens, 0) == TokenComplaint(rawTokens, i)
    {
      if rawTokens[i] == "" {
        return Failure(EmptyToken);
      }
      match rawTokens[i] {
        case "*" =>
          tokens := tokens + [SingleWildcard];
        case ">" =>
          if i != |rawTokens| - 1 {
            return Failure(MultiWildcardNotLast);
          }
          tokens := tokens + [MultiWildcard];
        case literal =>
          tokens := tokens + [Literal(literal)];
      }
    }
    PatternFrom(input, tokens);
    r := Success(SubjectPattern(trimmed, tokens));
  }

  /** Valid patterns with the same token texts are the same pattern. */
  lemma {:induction false} PatternTextInjective(p: SubjectPattern, q: SubjectPattern)
    requires ValidPattern(p) && ValidPattern(q)
    requires Texts(p.tokens) == Texts(q.tokens) || p.raw == q.raw
    ensures p == q
  {
    SplitInjective(p.raw, q.raw);
    forall i | 0 <= i < |p.tokens| ensures p.tokens[i] == q.tokens[i] {
      assert Texts(p.tokens)[i] == Texts(q.tokens)[i];
    }
  }

  // ---- short texts ----

  lemma {:induction false} SplitFirst(a: string, b: string)
    requires '.' !in a
    ensures Split(a) == [a] && Split(a + "." + b) == [a] + Split(b)
  {
    if a == "" {
      assert (a + "." + b)[1..] == b;
    } else {
      SplitFirst(a[1..], b);
      assert a == [a[0]] + a[1..];
      assert (a + "." + b)[1..] == a[1..] + "." + b;
      assert a[0] in a;
    }
  }

  lemma {:induction false} Utf8Bound(s: string)
    ensures Utf8Len(s) <= 4 * |s|
  {
    if s != "" {
      Utf8Bound(s[1..]);
    }
  }

  /** A single token without a dot is a pattern. */
  lemma {:induction false} OneTokenPattern(text: string)
    requires 0 < |text| <= 128 && Trimmed(text) && '.' !in text
    ensures ValidPattern(SubjectPattern(text, [Classify(text)]))
  {
    SplitFirst(text, "");
    Utf8Bound(text);
    assert Texts([Classify(text)]) == [text];
  }

  // ---- matching ----

  predicate TokenMatches(p: PatternToken, s: string) {
    match p
    case Literal(t) => t == s
    case SingleWildcard => true
    case MultiWildcard => true
  }

  /** `SubjectPattern::matches` over token lists, as a recursion on both. */
  predicate MatchTokens(p: seq<PatternToken>, s: seq<string>) {
    if p == [] || s == [] then p == [] && s == []
    else if p[0].MultiWildcard? then true
    else TokenMatches(p[0], s[0]) && MatchTokens(p[1..], s[1..])
  }

  /**
   What the README promises: token by token, `*` takes exactly one token and a final
   `>` takes one or more.
   */
  ghost predicate Denotes(p: seq<PatternToken>, s: seq<string>) {
    && (if HasMulti(p) then |p| <= |s| else |p| == |s|)
    && forall i :: 0 <= i < |p| ==> TokenMatches(p[i], s[i])
  }

  lemma {:induction false} MatchTokensDenotes(p: seq<PatternToken>, s: seq<string>)
    requires MultiOnlyLast(p)
    ensures MatchTokens(p, s) <==> Denotes(p, s)
  {
    if p == [] || s == [] {
    } else if p[0].MultiWildcard? {
      assert |p| == 1;
    } else {
      MatchTokensDenotes(p[1..], s[1..]);
      assert HasMulti(p) <==> HasMulti(p[1..]);
      if Denotes(p[1..], s[1..]) && TokenMatches(p[0], s[0]) {
        forall i | 0 <= i < |p| ensures TokenMatches(p[i], s[i]) {
          if i > 0 {
            assert TokenMatches(p[1..][i - 1], s[1..][i - 1]);
          }
        }
      }
      if Denotes(p, s) {
        assert TokenMatches(p[0], s[0]);
        forall i | 0 <= i < |p[1..]| ensures TokenMatches(p[1..][i], s[1..][i]) {
          assert TokenMatches(p[i + 1], s[i + 1]);
        }
      }
    }
  }

  /** `SubjectPattern::matches`. */
  method Matches(p: SubjectPattern, subject: Subject) returns (b: bool)
    ensures b == MatchTokens(p.tokens, subject.tokens)
    ensures ValidPattern(p) ==> b == Denotes(p.tokens, subject.tokens)
  {
    if MultiOnlyLast(p.tokens) {
      MatchTokensDenotes(p.tokens, subject.tokens);
    }
    var si, pi := 0, 0;
    while pi < |p.tokens| && si < |subject.tokens|
      invariant 0 <= pi == si <= |p.tokens| && si <= |subject.tokens|
      invariant MatchTokens(p.tokens, subject.tokens) == MatchTokens(p.tokens[pi..], subject.tokens[si..])
    {
      match p.tokens[pi] {
        case Literal(lit) =>
          if subject.tokens[si] != lit {
            return false;
          }
          si := si + 1;
          pi := pi + 1;
        case SingleWildcard =>
          si := si + 1;
          pi := pi + 1;
        case MultiWildcard =>
          return |subject.tokens| > si;
      }
    }
    return pi == |p.tokens| && si == |subject.tokens|;
  }
}
