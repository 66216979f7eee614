/**
 Subscribe permissions. `is_pattern_covered` decides whether one wildcard pattern's language lies inside
 another's by walking the two token lists; it is proved sound and complete, with the witness constructed.
 */
module Coverage {
  import opened Subjects

  type Tokens = seq<PatternToken>

  ghost predicate ValidTokens(s: seq<string>) {
    forall i :: 0 <= i < |s| ==> ValidToken(s[i])
  }

  /** Every subject, of whatever length, that `req` matches is matched by `all`. */
  ghost predicate Included(req: Tokens, all: Tokens) {
    forall s :: ValidTokens(s) && MatchTokens(req, s) ==> MatchTokens(all, s)
  }

  /** The walk of `is_pattern_covered`. */
  predicate Covers(req: Tokens, all: Tokens) {
    if all == [] || req == [] then all == [] && req == []
    else
      match all[0]
      case MultiWildcard => true
      case SingleWildcard => !req[0].MultiWildcard? && Covers(req[1..], all[1..])
      case Literal(_) => req[0] == all[0] && Covers(req[1..], all[1..])
  }

  /** `is_pattern_covered`. */
  method IsPatternCovered(requested: SubjectPattern, allowed: SubjectPattern) returns (b: bool)
    ensures b == Covers(requested.tokens, allowed.tokens)
    ensures b ==> forall s :: MatchTokens(requested.tokens, s) ==> MatchTokens(allowed.tokens, s)
    ensures ValidPattern(requested) ==>
              (Included(requested.tokens, allowed.tokens) <==> b || HasDeadLiteral(requested.tokens))
  {
    var req, all := requested.tokens, allowed.tokens;
    CoverageDecides(requested, allowed);
    forall s | Covers(req, all) && MatchTokens(req, s) ensures MatchTokens(all, s) {
      CoverageIsSound(req, all, s);
    }
    var ri, ai := 0, 0;
    while ai < |all| && ri < |req|
      invariant 0 <= ai == ri <= |all| && ri <= |req|
      invariant Covers(req, all) == Covers(req[ri..], all[ai..])
    {
      match (all[ai], req[ri]) {
        case (MultiWildcard, _) =>
          return true;
        case (SingleWildcard, Literal(_)) =>
          ai := ai + 1;
          ri := ri + 1;
        case (SingleWildcard, SingleWildcard) =>
          ai := ai + 1;
          ri := ri + 1;
        case (SingleWildcard, MultiWildcard) =>
          return false;
        case (Literal(a), Literal(r)) =>
          if a != r {
            return false;
          }
          ai := ai + 1;
          ri := ri + 1;
        case _ =>
          return false;
      }
    }
    return ai == |all| && ri == |req|;
  }

  /** Sound for every token list: whatever `req` matches, a covering pattern matches. */
  lemma {:induction false} CoverageIsSound(req: Tokens, all: Tokens, s: seq<string>)
    requires Covers(req, all) && MatchTokens(req, s)
    ensures MatchTokens(all, s)
  {
    if all != [] && req != [] && !all[0].MultiWildcard? {
      CoverageIsSound(req[1..], all[1..], s[1..]);
    }
  }

  // ---- completeness ----

  /** A literal no subject can contain: subjects never contain `*` or `>`. */
  ghost predicate HasDeadLiteral(req: Tokens) {
    exists i :: 0 <= i < |req| && req[i].Literal? && !ValidToken(req[i].text)
  }

  function Other(text: string): string {
    if text == "x" then "y" else "x"
  }

  /** Some subject the pattern matches. */
  function Instance(req: Tokens): seq<string> {
    if req == [] then []
    else [if req[0].Literal? then req[0].text else "x"] + Instance(req[1..])
  }

  lemma {:induction false} InstanceMatches(req: Tokens)
    requires !HasDeadLiteral(req)
    ensures MatchTokens(req, Instance(req)) && ValidTokens(Instance(req)) && |Instance(req)| == |req|
  {
    if req != [] {
      DeadTail(req);
      InstanceMatches(req[1..]);
      assert Instance(req)[1..] == Instance(req[1..]);
      assert req[0].Literal? ==> ValidToken(req[0].text);
    }
  }

  lemma {:induction false} DeadTail(req: Tokens)
    requires req != [] && !HasDeadLiteral(req)
    ensures !HasDeadLiteral(req[1..])
  {
    forall i | 0 <= i < |req[1..]| ensures !(req[1..][i].Literal? && !ValidToken(req[1..][i].text)) {
      assert req[1..][i] == req[i + 1];
    }
  }

  /** A subject that `req` matches and `all` does not, when `all` does not cover `req`. */
  function Witness(req: Tokens, all: Tokens): seq<string> {
    if req == [] || all == [] then Instance(req)
    else
      match (all[0], req[0])
      case (SingleWildcard, MultiWildcard) => if |all| == 1 then ["x", "x"] else ["x"]
      case (Literal(a), SingleWildcard) => [Other(a)] + Instance(req[1..])
      case (Literal(a), MultiWildcard) => [Other(a)]
      case (Literal(a), Literal(r)) => [r] + if a == r then Witness(req[1..], all[1..]) else Instance(req[1..])
      case (SingleWildcard, Literal(r)) => [r] + Witness(req[1..], all[1..])
      case _ => ["x"] + Witness(req[1..], all[1..])
  }

  /** Complete: the witness separates the two patterns. */
  lemma {:induction false} CoverageIsComplete(req: Tokens, all: Tokens)
    requires MultiOnlyLast(req) && !HasDeadLiteral(req) && !Covers(req, all)
    ensures ValidTokens(Witness(req, all))
    ensures MatchTokens(req, Witness(req, all)) && !MatchTokens(all, Witness(req, all))
  {
    var w := Witness(req, all);
    if req == [] || all == [] {
      InstanceMatches(req);
    } else {
      DeadTail(req);
      InstanceMatches(req[1..]);
      assert req[0].Literal? ==> ValidToken(req[0].text);
      if req[0].MultiWildcard? {
        assert |req| == 1;
        ShortSubject(all, w);
      } else {
        var rest := if all[0].Literal? && all[0] != req[0] then Instance(req[1..]) else Witness(req[1..], all[1..]);
        assert w[1..] == rest;
        if !(all[0].Literal? && all[0] != req[0]) {
          CoverageIsComplete(req[1..], all[1..]);
        }
      }
    }
  }

  lemma {:induction false} ShortSubject(all: Tokens, w: seq<string>)
    requires all != [] && !all[0].MultiWildcard?
    requires w == match all[0]
                  case SingleWildcard => (if |all| == 1 then ["x", "x"] else ["x"])
                  case _ => [Other(TokenText(all[0]))]
    ensures !MatchTokens(all, w)
  {
    assert w[1..] == if all[0].SingleWildcard? && |all| == 1 then ["x"] else [];
  }

  /** A pattern with a dead literal matches no subject at all. */
  lemma {:induction false} DeadLiteralMatchesNothing(req: Tokens, s: seq<string>)
    requires MultiOnlyLast(req) && ValidTokens(s) && MatchTokens(req, s)
    ensures !HasDeadLiteral(req)
  {
    MatchTokensDenotes(req, s);
    forall i | 0 <= i < |req| && req[i].Literal? ensures ValidToken(req[i].text) {
      assert TokenMatches(req[i], s[i]);
    }
  }

  /** The decision is exact: inclusion holds if and only if the walk says so or the request matches nothing. */
  lemma {:induction false} CoverageDecides(requested: SubjectPattern, allowed: SubjectPattern)
    ensures ValidPattern(requested) ==>
              (Included(requested.tokens, allowed.tokens) <==>
               Covers(requested.tokens, allowed.tokens) || HasDeadLiteral(requested.tokens))
  {
    var req, all := requested.tokens, allowed.tokens;
    if ValidPattern(requested) {
      if Covers(req, all) || HasDeadLiteral(req) {
        forall s | ValidTokens(s) && MatchTokens(req, s) ensures MatchTokens(all, s) {
          DeadLiteralMatchesNothing(req, s);
          CoverageIsSound(req, all, s);
        }
      } else {
        CoverageIsComplete(req, all);
      }
    }
  }

  /**
   The pattern `a*b` is accepted by the parser as a literal and matches no subject, so every permission
   includes it, and yet the permission `x` refuses it.
   */
  lemma {:induction false} DeadLiteralIsRefused()
    ensures var requested, allowed := SubjectPattern("a*b", [Literal("a*b")]), SubjectPattern("x", [Literal("x")]);
            && ValidPattern(requested) && ValidPattern(allowed) && HasDeadLiteral(requested.tokens)
            && Included(requested.tokens, allowed.tokens) && !Covers(requested.tokens, allowed.tokens)
  {
    var requested, allowed := SubjectPattern("a*b", [Literal("a*b")]), SubjectPattern("x", [Literal("x")]);
    OneTokenPattern("x");
    OneTokenPattern("a*b");
    assert requested.tokens[0].Literal? && '*' in requested.tokens[0].text by {
      assert "a*b"[1] == '*';
    }
    CoverageDecides(requested, allowed);
  }

  // ---- a list of permissions ----

  /** `can_publish`: an empty list means unrestricted. */
  predicate CanPublish(allowed: seq<SubjectPattern>, s: Subject) {
    allowed == [] || exists i :: 0 <= i < |allowed| && MatchTokens(allowed[i].tokens, s.tokens)
  }

  ghost predicate AllValid(allowed: seq<SubjectPattern>) {
    forall i :: 0 <= i < |allowed| ==> ValidPattern(allowed[i])
  }

  /** Publishing is allowed without permissions, or when one of them matches token by token. */
  lemma {:induction false} PublishAllowedIff(allowed: seq<SubjectPattern>, s: Subject)
    requires AllValid(allowed)
    ensures CanPublish(allowed, s) <==>
            allowed == [] || exists i :: 0 <= i < |allowed| && Denotes(allowed[i].tokens, s.tokens)
  {
    hide MatchTokens;
    hide Denotes;
    forall i | 0 <= i < |allowed|
      ensures MatchTokens(allowed[i].tokens, s.tokens) <==> Denotes(allowed[i].tokens, s.tokens)
    {
      MatchTokensDenotes(allowed[i].tokens, s.tokens);
    }
  }

  /** `can_publish` over the permissions, one after the other. */
  method MayPublish(allowed: seq<SubjectPattern>, s: Subject) returns (ok: bool)
    requires AllValid(allowed)
    ensures ok == CanPublish(allowed, s)
    ensures ok <==> allowed == [] || exists i :: 0 <= i < |allowed| && Denotes(allowed[i].tokens, s.tokens)
  {
    hide MatchTokens;
    hide Denotes;
    hide ValidPattern;
    PublishAllowedIff(allowed, s);
    if allowed == [] {
      return true;
    }
    for i := 0 to |allowed|
      invariant forall j :: 0 <= j < i ==> !MatchTokens(allowed[j].tokens, s.tokens)
    {
      ok := Matches(allowed[i], s);
      if ok {
        return;
      }
    }
    return false;
  }

  /** `can_subscribe`: some single permission covers the pattern. */
  predicate CanSubscribe(allowed: seq<SubjectPattern>, p: SubjectPattern) {
    allowed == [] || exists i :: 0 <= i < |allowed| && Covers(p.tokens, allowed[i].tokens)
  }

  /** `can_subscribe` over the permissions, one after the other. */
  method MaySubscribe(allowed: seq<SubjectPattern>, p: SubjectPattern) returns (ok: bool)
    ensures ok == CanSubscribe(allowed, p)
    ensures ok && allowed != [] ==> forall s :: MatchTokens(p.tokens, s) ==>
              exists i :: 0 <= i < |allowed| && MatchTokens(allowed[i].tokens, s)
  {
    hide MatchTokens;
    hide Covers;
    hide Included;
    if allowed == [] {
      return true;
    }
    for i := 0 to |allowed|
      invariant forall j :: 0 <= j < i ==> !Covers(p.tokens, allowed[j].tokens)
    {
      ok := IsPatternCovered(p, allowed[i]);
      if ok {
        return;
      }
    }
    return false;
  }

  /** A pattern of literals covers what it is: the one subject. */
  lemma {:induction false} LiteralCovers(req: Tokens, all: Tokens, s: seq<string>)
    requires |req| == |s| && forall i :: 0 <= i < |s| ==> req[i] == Literal(s[i])
    ensures Covers(req, all) <==> MatchTokens(all, s)
  {
    if all != [] && req != [] && !all[0].MultiWildcard? {
      LiteralCovers(req[1..], all[1..], s[1..]);
    }
  }

  /** Subscribing to a subject literally is allowed if and only if publishing to it is. */
  lemma {:induction false} LiteralPermissionsAgree(allowed: seq<SubjectPattern>, p: SubjectPattern, s: Subject)
    requires ValidPattern(p) && ValidSubject(s) && p.raw == s.raw
    ensures CanSubscribe(allowed, p) <==> CanPublish(allowed, s)
  {
    hide MatchTokens;
    hide Covers;
    forall i | 0 <= i < |s.tokens| ensures p.tokens[i] == Literal(s.tokens[i]) {
      assert Texts(p.tokens)[i] == s.tokens[i] && ValidToken(s.tokens[i]);
    }
    forall i | 0 <= i < |allowed|
      ensures Covers(p.tokens, allowed[i].tokens) <==> MatchTokens(allowed[i].tokens, s.tokens)
    {
      LiteralCovers(p.tokens, allowed[i].tokens, s.tokens);
    }
  }

  /** Nothing a permitted subscription can receive lies outside the permissions. */
  lemma {:induction false} SubscribePermissionIsSound(allowed: seq<SubjectPattern>, p: SubjectPattern, s: Subject)
    requires CanSubscribe(allowed, p) && MatchTokens(p.tokens, s.tokens)
    ensures CanPublish(allowed, s)
  {
    if allowed != [] {
      var i :| 0 <= i < |allowed| && Covers(p.tokens, allowed[i].tokens);
      CoverageIsSound(p.tokens, allowed[i].tokens, s.tokens);
    }
  }

  /** All subjects of `req` lie in the union of the permissions. */
  ghost predicate InUnion(req: Tokens, allowed: seq<SubjectPattern>) {
    forall s :: ValidTokens(s) && MatchTokens(req, s) ==>
                exists i :: 0 <= i < |allowed| && MatchTokens(allowed[i].tokens, s)
  }

  /** The subject of `req` with every `*` replaced by one token that no permission mentions. */
  function Generic(req: Tokens, novel: string): seq<string> {
    if req == [] then []
    else [if req[0].Literal? then req[0].text else novel] + Generic(req[1..], novel)
  }

  lemma {:induction false} GenericMatches(req: Tokens, novel: string)
    requires !HasDeadLiteral(req) && ValidToken(novel)
    ensures MatchTokens(req, Generic(req, novel)) && ValidTokens(Generic(req, novel))
  {
    if req != [] {
      DeadTail(req);
      GenericMatches(req[1..], novel);
      assert Generic(req, novel)[1..] == Generic(req[1..], novel);
      assert req[0].Literal? ==> ValidToken(req[0].text);
    }
  }

  /** Without `>` in the request, whoever matches the generic subject covers the request. */
  lemma {:induction false} GenericDecides(req: Tokens, all: Tokens, novel: string)
    requires !HasMulti(req) && MatchTokens(all, Generic(req, novel)) && Literal(novel) !in all
    ensures Covers(req, all)
  {
    if all != [] && req != [] && !all[0].MultiWildcard? {
      assert Generic(req, novel)[1..] == Generic(req[1..], novel);
      assert req[0] in req && all[0] in all;
      GenericDecides(req[1..], all[1..], novel);
    }
  }

  function Longest(ts: Tokens): nat {
    if ts == [] then 0
    else
      var rest := Longest(ts[1..]);
      if ts[0].Literal? && |ts[0].text| > rest then |ts[0].text| else rest
  }

  function LongestOf(allowed: seq<SubjectPattern>): nat {
    if allowed == [] then 0
    else
      var rest, first := LongestOf(allowed[1..]), Longest(allowed[0].tokens);
      if first > rest then first else rest
  }

  lemma {:induction false} LongestBounds(ts: Tokens, text: string)
    requires Literal(text) in ts
    ensures |text| <= Longest(ts)
  {
    if ts[0] != Literal(text) {
      LongestBounds(ts[1..], text);
    }
  }

  lemma {:induction false} LongestOfBounds(allowed: seq<SubjectPattern>, i: nat)
    requires i < |allowed|
    ensures Longest(allowed[i].tokens) <= LongestOf(allowed)
  {
    if i > 0 {
      LongestOfBounds(allowed[1..], i - 1);
    }
  }

  function Xs(n: nat): (s: string)
    ensures |s| == n && forall i :: 0 <= i < n ==> s[i] == 'x'
  {
    seq(n, _ => 'x')
  }

  ghost predicate AnyCovers(allowed: seq<SubjectPattern>, req: Tokens) {
    exists i :: 0 <= i < |allowed| && Covers(req, allowed[i].tokens)
  }

  /**
   For a request without `>`, a permission list whose union holds all its subjects has a single member
   that covers it, so `can_subscribe` answers the semantic question.
   */
  lemma {:induction false} UnionNeedsNoSplit(allowed: seq<SubjectPattern>, req: Tokens)
    requires !HasMulti(req) && !HasDeadLiteral(req)
    ensures InUnion(req, allowed) <==> AnyCovers(allowed, req)
  {
    if InUnion(req, allowed) {
      var novel := Xs(LongestOf(allowed) + 1);
      assert ValidToken(novel);
      GenericMatches(req, novel);
      var i :| 0 <= i < |allowed| && MatchTokens(allowed[i].tokens, Generic(req, novel));
      LongestOfBounds(allowed, i);
      assert Literal(novel) !in allowed[i].tokens by {
        if Literal(novel) in allowed[i].tokens {
          LongestBounds(allowed[i].tokens, novel);
        }
      }
      GenericDecides(req, allowed[i].tokens, novel);
    }
    if AnyCovers(allowed, req) {
      var i :| 0 <= i < |allowed| && Covers(req, allowed[i].tokens);
      forall s | ValidTokens(s) && MatchTokens(req, s)
        ensures exists i :: 0 <= i < |allowed| && MatchTokens(allowed[i].tokens, s)
      {
        CoverageIsSound(req, allowed[i].tokens, s);
      }
    }
  }

  function Stars(n: nat): (r: Tokens)
    ensures |r| == n && forall i :: 0 <= i < n ==> r[i] == SingleWildcard
  {
    seq(n, _ => SingleWildcard)
  }

  /** The pattern `prefix.*.*`... with `n + 1` stars. */
  function Starred(prefix: Tokens, n: nat): (r: Tokens) {
    prefix + Stars(n + 1)
  }

  lemma {:induction false} StarredMatches(prefix: Tokens, n: nat, s: seq<string>)
    requires !HasMulti(prefix)
    ensures MatchTokens(Starred(prefix, n), s) <==>
            |s| == |prefix| + n + 1 && forall i :: 0 <= i < |prefix| ==> TokenMatches(prefix[i], s[i])
  {
    var p := Starred(prefix, n);
    assert forall i :: 0 <= i < |prefix| ==> prefix[i] in prefix && p[i] == prefix[i];
    MatchTokensDenotes(p, s);
  }

  lemma {:induction false} MultiMatches(prefix: Tokens, s: seq<string>)
    requires !HasMulti(prefix)
    ensures MatchTokens(prefix + [MultiWildcard], s) <==>
            |s| > |prefix| && forall i :: 0 <= i < |prefix| ==> TokenMatches(prefix[i], s[i])
  {
    var p := prefix + [MultiWildcard];
    assert forall i :: 0 <= i < |prefix| ==> prefix[i] in prefix && p[i] == prefix[i];
    assert p[|prefix|] == MultiWildcard;
    MatchTokensDenotes(p, s);
  }

  ghost predicate StarsCovered(allowed: seq<SubjectPattern>, prefix: Tokens, n: nat) {
    AnyCovers(allowed, Starred(prefix, n))
  }

  lemma {:induction false} StarsCoveredIff(allowed: seq<SubjectPattern>, prefix: Tokens, n: nat)
    requires !HasMulti(prefix) && !HasDeadLiteral(prefix)
    ensures InUnion(Starred(prefix, n), allowed) <==> StarsCovered(allowed, prefix, n)
  {
    var req := Starred(prefix, n);
    forall i | 0 <= i < |req| ensures !(req[i].Literal? && !ValidToken(req[i].text)) && !req[i].MultiWildcard? {
      assert i < |prefix| ==> req[i] == prefix[i];
    }
    UnionNeedsNoSplit(allowed, req);
  }

  /** The length of the longest permission. */
  function MaxLen(allowed: seq<SubjectPattern>): (n: nat)
    ensures forall i :: 0 <= i < |allowed| ==> |allowed[i].tokens| <= n
  {
    if allowed == [] then 0
    else
      var rest, first := MaxLen(allowed[1..]), |allowed[0].tokens|;
      assert forall i :: 1 <= i < |allowed| ==> allowed[i] == allowed[1..][i - 1];
      if first > rest then first else rest
  }

  /** A permission that covers a longer request looks only at its own length of it. */
  lemma {:induction false} CoversLonger(a: Tokens, b: Tokens, q: Tokens)
    requires |a| > |q| && |b| > |q| && a[..|q|] == b[..|q|] && Covers(a, q)
    ensures Covers(b, q)
  {
    if q != [] && !q[0].MultiWildcard? {
      assert a[0] == a[..|q|][0] == b[..|q|][0] == b[0];
      assert a[1..][..|q| - 1] == a[..|q|][1..] && b[1..][..|q| - 1] == b[..|q|][1..];
      CoversLonger(a[1..], b[1..], q[1..]);
    }
  }

  lemma {:induction false} StarredShare(prefix: Tokens, m: nat, n: nat, k: nat)
    requires k <= |prefix| + m + 1 && m <= n
    ensures |Starred(prefix, m)| == |prefix| + m + 1 && |Starred(prefix, n)| == |prefix| + n + 1
    ensures Starred(prefix, m)[..k] == Starred(prefix, n)[..k]
  {
  }

  /** Beyond the longest permission one more star makes no difference. */
  lemma {:induction false} StarsCoveredBeyond(allowed: seq<SubjectPattern>, prefix: Tokens, n: nat)
    requires n >= MaxLen(allowed) && StarsCovered(allowed, prefix, MaxLen(allowed))
    ensures StarsCovered(allowed, prefix, n)
  {
    var m := MaxLen(allowed);
    var i :| 0 <= i < |allowed| && Covers(Starred(prefix, m), allowed[i].tokens);
    StarredShare(prefix, m, n, |allowed[i].tokens|);
    CoversLonger(Starred(prefix, m), Starred(prefix, n), allowed[i].tokens);
  }

  /** Each of `prefix.*`, `prefix.*.*`, ... up to the longest permission is covered by some permission. */
  ghost predicate AllStarsCovered(allowed: seq<SubjectPattern>, prefix: Tokens) {
    forall n :: 0 <= n <= MaxLen(allowed) ==> StarsCovered(allowed, prefix, n)
  }

  /**
   For a request ending in `>`, the union holds all its subjects if and only if each of `prefix.*`,
   `prefix.*.*`, ... is covered by some permission, as far as the longest permission reaches.
   */
  lemma {:induction false} UnionOfMulti(allowed: seq<SubjectPattern>, prefix: Tokens)
    requires !HasMulti(prefix) && !HasDeadLiteral(prefix)
    ensures InUnion(prefix + [MultiWildcard], allowed) <==> AllStarsCovered(allowed, prefix)
  {
    if InUnion(prefix + [MultiWildcard], allowed) {
      forall n | 0 <= n <= MaxLen(allowed) ensures StarsCovered(allowed, prefix, n) {
        forall s | ValidTokens(s) && MatchTokens(Starred(prefix, n), s)
          ensures exists i :: 0 <= i < |allowed| && MatchTokens(allowed[i].tokens, s)
        {
          StarredMatches(prefix, n, s);
          MultiMatches(prefix, s);
        }
        StarsCoveredIff(allowed, prefix, n);
      }
    }
    if AllStarsCovered(allowed, prefix) {
      forall s | ValidTokens(s) && MatchTokens(prefix + [MultiWildcard], s)
        ensures exists i :: 0 <= i < |allowed| && MatchTokens(allowed[i].tokens, s)
      {
        StarsHold(allowed, prefix, s);
      }
    }
  }

  lemma {:induction false} StarsHold(allowed: seq<SubjectPattern>, prefix: Tokens, s: seq<string>)
    requires !HasMulti(prefix) && !HasDeadLiteral(prefix) && AllStarsCovered(allowed, prefix)
    requires ValidTokens(s) && MatchTokens(prefix + [MultiWildcard], s)
    ensures exists i :: 0 <= i < |allowed| && MatchTokens(allowed[i].tokens, s)
  {
    MultiMatches(prefix, s);
    var n := |s| - |prefix| - 1;
    StarredMatches(prefix, n, s);
    if n > MaxLen(allowed) {
      StarsCoveredBeyond(allowed, prefix, n);
    }
    assert StarsCovered(allowed, prefix, n);
    StarsCoveredIff(allowed, prefix, n);
  }

  // ---- when can_subscribe gives the right answer ----

  /** The permissions together allow everything the pattern can receive. */
  ghost predicate Permits(allowed: seq<SubjectPattern>, p: SubjectPattern) {
    allowed == [] || InUnion(p.tokens, allowed)
  }

  /** No permission covers the request, and yet it can receive nothing beyond them. */
  ghost predicate Refused(allowed: seq<SubjectPattern>, p: SubjectPattern) {
    && allowed != [] && !AnyCovers(allowed, p.tokens)
    && (|| HasDeadLiteral(p.tokens)
        || (HasMulti(p.tokens) && AllStarsCovered(allowed, p.tokens[..|p.tokens| - 1])))
  }

  lemma {:induction false} DeadIsPermitted(allowed: seq<SubjectPattern>, p: SubjectPattern)
    requires ValidPattern(p) && HasDeadLiteral(p.tokens)
    ensures InUnion(p.tokens, allowed)
  {
    forall s | ValidTokens(s) ensures !MatchTokens(p.tokens, s) {
      if MatchTokens(p.tokens, s) {
        DeadLiteralMatchesNothing(p.tokens, s);
      }
    }
  }

  lemma {:induction false} MultiPermittedIff(allowed: seq<SubjectPattern>, p: SubjectPattern)
    requires ValidPattern(p) && HasMulti(p.tokens) && !HasDeadLiteral(p.tokens)
    ensures InUnion(p.tokens, allowed) <==> AllStarsCovered(allowed, p.tokens[..|p.tokens| - 1])
  {
    var prefix := p.tokens[..|p.tokens| - 1];
    var i :| 0 <= i < |p.tokens| && p.tokens[i].MultiWildcard?;
    assert p.tokens == prefix + [MultiWildcard];
    forall j | 0 <= j < |prefix|
      ensures !prefix[j].MultiWildcard? && (prefix[j].Literal? ==> ValidToken(prefix[j].text))
    {
      assert prefix[j] == p.tokens[j];
    }
    UnionOfMulti(allowed, prefix);
  }

  lemma {:induction false} CoveredIsPermitted(allowed: seq<SubjectPattern>, p: SubjectPattern)
    requires AnyCovers(allowed, p.tokens)
    ensures InUnion(p.tokens, allowed)
  {
    var i :| 0 <= i < |allowed| && Covers(p.tokens, allowed[i].tokens);
    forall s | ValidTokens(s) && MatchTokens(p.tokens, s)
      ensures exists j :: 0 <= j < |allowed| && MatchTokens(allowed[j].tokens, s)
    {
      CoverageIsSound(p.tokens, allowed[i].tokens, s);
    }
  }

  /**
   For every valid pattern and every permission list, `can_subscribe` answers whether the permissions
   together allow the pattern, if and only if the pattern is not one of the refused ones: a request that
   can never match, or a `>` request that the permissions allow only between them.
   */
  lemma {:induction false} SubscribeIsRightIff(allowed: seq<SubjectPattern>, p: SubjectPattern)
    requires ValidPattern(p)
    ensures CanSubscribe(allowed, p) ==> Permits(allowed, p)
    ensures (CanSubscribe(allowed, p) <==> Permits(allowed, p)) <==> !Refused(allowed, p)
  {
    hide InUnion;
    hide HasDeadLiteral;
    hide AllStarsCovered;
    hide Covers;
    assert CanSubscribe(allowed, p) <==> allowed == [] || AnyCovers(allowed, p.tokens);
    if AnyCovers(allowed, p.tokens) {
      CoveredIsPermitted(allowed, p);
    }
    if HasDeadLiteral(p.tokens) {
      DeadIsPermitted(allowed, p);
    } else if HasMulti(p.tokens) {
      MultiPermittedIff(allowed, p);
    } else {
      UnionNeedsNoSplit(allowed, p.tokens);
    }
  }

  /** So `*` and `*.>` together allow all of `>`, which is refused. */
  lemma {:induction false} SplitPermissionsAreRefused()
    ensures var p := SubjectPattern(">", [MultiWildcard]);
            var one := SubjectPattern("*", [SingleWildcard]);
            var more := SubjectPattern("*.>", [SingleWildcard, MultiWildcard]);
            && ValidPattern(p) && ValidPattern(one) && ValidPattern(more)
            && InUnion(p.tokens, [one, more]) && !CanSubscribe([one, more], p) && Refused([one, more], p)
  {
    var p := SubjectPattern(">", [MultiWildcard]);
    var one, more := SubjectPattern("*", [SingleWildcard]), SubjectPattern("*.>", [SingleWildcard, MultiWildcard]);
    var allowed := [one, more];
    OneTokenPattern(">");
    OneTokenPattern("*");
    StarDotMulti();
    forall s | ValidTokens(s) && MatchTokens(p.tokens, s)
      ensures exists i :: 0 <= i < |allowed| && MatchTokens(allowed[i].tokens, s)
    {
      if |s| == 1 {
        assert MatchTokens(allowed[0].tokens, s);
      } else {
        assert MatchTokens(allowed[1].tokens, s);
      }
    }
    SubscribeIsRightIff(allowed, p);
  }

  lemma {:induction false} StarDotMulti()
    ensures ValidPattern(SubjectPattern("*.>", [SingleWildcard, MultiWildcard]))
  {
    SplitFirst("*", ">");
    SplitFirst(">", "");
    assert "*" + "." + ">" == "*.>";
    Utf8Bound("*.>");
    assert Texts([SingleWildcard, MultiWildcard]) == ["*", ">"];
  }
}
