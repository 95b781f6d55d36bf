/** What Topics_matches means, and how it relates to section 4.7.1 of MQTT 3.1.1. */
module TopicLaws {
  import opened Bytes
  import opened Topics

  // ---------------------------------------------------------------- declarative matching

  /** Level by level, `+` or the same, as far as `w` goes. */
  ghost predicate Pointwise(w: seq<seq<byte>>, t: seq<seq<byte>>)
    requires |w| <= |t|
  {
    forall i :: 0 <= i < |w| ==> w[i] == [PLUS] || w[i] == t[i]
  }

  /** A match of the levels `w`, of which only the last may be `#`, from the front. */
  ghost predicate FrontMatch(w: seq<seq<byte>>, t: seq<seq<byte>>) {
    if w != [] && w[|w| - 1] == [HASH] then |w| - 1 <= |t| && Pointwise(w[..|w| - 1], t)
    else |w| == |t| && Pointwise(w, t)
  }

  /** A match of the levels that follow a leading `#`, from the back. */
  ghost predicate BackMatch(w: seq<seq<byte>>, t: seq<seq<byte>>) {
    |w| <= |t| && Pointwise(w, t[|t| - |w|..])
  }

  ghost predicate HashOnlyLast(w: seq<seq<byte>>) {
    forall i :: 0 <= i < |w| - 1 ==> w[i] != [HASH]
  }

  /** The recursive walk is the declarative match. */
  lemma {:induction false} WalkIsFrontMatch(w: seq<seq<byte>>, t: seq<seq<byte>>)
    requires HashOnlyLast(w)
    ensures LevelMatch(w, t) <==> FrontMatch(w, t)
    decreases |w|
  {
    if w == [] || w[0] == [HASH] {
    } else if t == [] {
    } else {
      assert HashOnlyLast(w[1..]) by {
        forall i | 0 <= i < |w[1..]| - 1
          ensures w[1..][i] != [HASH]
        {
          assert w[1..][i] == w[i + 1];
        }
      }
      WalkIsFrontMatch(w[1..], t[1..]);
      FrontMatchStep(w, t);
    }
  }

  lemma FrontMatchStep(w: seq<seq<byte>>, t: seq<seq<byte>>)
    requires w != [] && t != [] && w[0] != [HASH]
    ensures FrontMatch(w, t) <==> (w[0] == [PLUS] || w[0] == t[0]) && FrontMatch(w[1..], t[1..])
  {
    var last := |w| - 1;
    var hash := w[last] == [HASH];
    var u := if hash then w[..last] else w;
    if |u| <= |t| {
      PointwiseStep(u, t);
      if hash {
        assert |w| > 1 ==> FrontMatch(w[1..], t[1..]) == FrontMatch(u[1..] + [[HASH]], t[1..]) by {
          assert w == u + [[HASH]];
          assert |w| > 1 ==> w[1..] == u[1..] + [[HASH]];
        }
        assert |w| > 1 ==> (u[1..] + [[HASH]])[..last - 1] == u[1..];
      }
    }
  }

  lemma PointwiseStep(u: seq<seq<byte>>, t: seq<seq<byte>>)
    requires 0 < |u| <= |t|
    ensures Pointwise(u, t) <==> (u[0] == [PLUS] || u[0] == t[0]) && Pointwise(u[1..], t[1..])
  {
    if Pointwise(u[1..], t[1..]) && (u[0] == [PLUS] || u[0] == t[0]) {
      forall i | 0 <= i < |u|
        ensures u[i] == [PLUS] || u[i] == t[i]
      {
        if i > 0 {
          assert u[i] == u[1..][i - 1] && t[i] == t[1..][i - 1];
        }
      }
    }
    if Pointwise(u, t) {
      forall i | 0 <= i < |u[1..]|
        ensures u[1..][i] == [PLUS] || u[1..][i] == t[1..][i]
      {
        assert u[1..][i] == u[i + 1] && t[1..][i] == t[i + 1];
      }
    }
  }

  /** When a `#` can only be the last character, only the last token can be `#`. */
  lemma {:induction false} HashTokenIsLast(s: seq<byte>)
    requires forall i :: 0 <= i < |s| - 1 ==> s[i] != HASH
    ensures HashOnlyLast(Tokens(s))
    decreases |s|
  {
    if s == [] {
    } else if s[0] == SLASH {
      HashTokenIsLast(s[1..]);
    } else {
      var k := IndexOf(s, SLASH);
      HashTokenIsLast(s[k..]);
      var rest := Tokens(s[k..]);
      assert Tokens(s) == [s[..k]] + rest;
      if s[..k] == [HASH] {
        assert s[0] == s[..k][0];
        assert k == |s|;
      }
      forall i | 0 <= i < |Tokens(s)| - 1
        ensures Tokens(s)[i] != [HASH]
      {
        if i > 0 {
          assert Tokens(s)[i] == rest[i - 1];
        } else {
          assert rest != [];
          assert k < |s|;
        }
      }
    }
  }

  /** Matching reversed levels from the front is matching the levels from the back. */
  lemma ReversedFrontIsBack(w: seq<seq<byte>>, t: seq<seq<byte>>)
    ensures FrontMatch(RevAll(w) + [[HASH]], RevAll(t)) <==> BackMatch(w, t)
  {
    var rw, rt := RevAll(w), RevAll(t);
    assert (rw + [[HASH]])[..|rw|] == rw;
    if |w| <= |t| {
      var u := t[|t| - |w|..];
      forall i | 0 <= i < |w|
        ensures rw[i] == [PLUS] || rw[i] == rt[i] <==> w[|w| - 1 - i] == [PLUS] || w[|w| - 1 - i] == u[|w| - 1 - i]
      {
        SameReversed(w[|w| - 1 - i], [PLUS]);
        SameReversed(w[|w| - 1 - i], t[|t| - 1 - i]);
      }
      if Pointwise(rw, rt) {
        forall i | 0 <= i < |w|
          ensures w[i] == [PLUS] || w[i] == u[i]
        {
          var j := |w| - 1 - i;
          assert rw[j] == [PLUS] || rw[j] == rt[j];
        }
      }
    }
  }

  lemma SameReversed(a: seq<byte>, b: seq<byte>)
    ensures Rev(a) == Rev(b) <==> a == b
    ensures |b| == 1 ==> Rev(b) == b
  {
    RevRev(a);
    RevRev(b);
  }

  /** The guards that come before the token loop. */
  ghost predicate Special(f: seq<byte>, t: seq<byte>) {
    || f == t || f == [HASH] || f == [SLASH, HASH]
    || (Head(f, SLASH) && !Head(t, SLASH)) || (Head(f, PLUS) && Head(t, SLASH))
  }

  /** A valid filter that starts with `#` has no other, so reversed it has one at the end. */
  lemma HashFirst(f: seq<byte>)
    requires ValidName(f) && Head(f, HASH)
    ensures Tokens(f) != [] && Tokens(f)[0] == [HASH]
    ensures Tokens(Rev(f)) == RevAll(Tokens(f)[1..]) + [[HASH]]
    ensures HashOnlyLast(Tokens(Rev(f)))
  {
    var k := IndexOf(f, SLASH);
    assert Alone(f, 0);
    IndexOfIs(f, SLASH, 1);
    assert f[..k] == [HASH];
    TokensReversed(f);
    assert RevAll(Tokens(f)) == RevAll(Tokens(f)[1..]) + [Rev([HASH])];
    SameReversed([HASH], [HASH]);
    HashTokenIsLast(Rev(f));
  }

  /**
   * For a valid filter, outside the special cases: the levels that are not empty are matched
   * from the front, where a last `#` stands for any rest, or, when the filter starts with
   * `#`, from the back.
   */
  lemma MatchesIsDeclarative(f: seq<byte>, t: seq<byte>)
    requires ValidName(f) && ValidName(t) && !HasWildcards(t) && !Special(f, t)
    ensures Matches(f, true, t) <==>
            if Head(f, HASH) then BackMatch(Tokens(f)[1..], Tokens(t)) else FrontMatch(Tokens(f), Tokens(t))
    ensures Head(f, HASH) ==> Tokens(f)[0] == [HASH]
  {
    if Head(f, HASH) {
      HashFirst(f);
      TokensReversed(t);
      WalkIsFrontMatch(Tokens(Rev(f)), Tokens(Rev(t)));
      ReversedFrontIsBack(Tokens(f)[1..], Tokens(t));
    } else {
      HashTokenIsLast(f);
      WalkIsFrontMatch(Tokens(f), Tokens(t));
    }
  }

  // ---------------------------------------------------------------- valid names, level by level

  /** A wildcard has its level to itself, as section 4.7.1 has it. */
  predicate WholeLevels(ls: seq<seq<byte>>) {
    ls == [] || ((HasWildcards(ls[0]) ==> |ls[0]| == 1) && WholeLevels(ls[1..]))
  }

  predicate NoHash(ls: seq<seq<byte>>) {
    ls == [] || (HASH !in ls[0] && NoHash(ls[1..]))
  }

  predicate NoHashBeforeLast(ls: seq<seq<byte>>) {
    |ls| <= 1 || (HASH !in ls[0] && NoHashBeforeLast(ls[1..]))
  }

  ghost predicate AloneAll(s: seq<byte>) {
    forall i :: 0 <= i < |s| && Wild(s[i]) ==> Alone(s, i)
  }

  lemma AloneSplit(u: seq<byte>, v: seq<byte>)
    requires SLASH !in u
    ensures AloneAll(u + [SLASH] + v) <==> AloneAll(u) && AloneAll(v)
  {
    var s := u + [SLASH] + v;
    assert forall i :: 0 <= i < |v| ==> s[|u| + 1 + i] == v[i];
    if AloneAll(s) {
      forall i | 0 <= i < |u| && Wild(u[i])
        ensures Alone(u, i)
      {
        assert Wild(s[i]);
      }
      forall i | 0 <= i < |v| && Wild(v[i])
        ensures Alone(v, i)
      {
        assert Wild(s[|u| + 1 + i]);
      }
    }
    if AloneAll(u) && AloneAll(v) {
      forall i | 0 <= i < |s| && Wild(s[i])
        ensures Alone(s, i)
      {
        if i < |u| {
          assert Wild(u[i]) && Alone(u, i);
        } else {
          assert i != |u|;
          assert Wild(v[i - |u| - 1]) && Alone(v, i - |u| - 1);
        }
      }
    }
  }

  lemma AloneOne(u: seq<byte>)
    requires SLASH !in u
    ensures AloneAll(u) <==> (HasWildcards(u) ==> |u| == 1)
  {
    if AloneAll(u) && HasWildcards(u) {
      var i :| 0 <= i < |u| && Wild(u[i]);
      assert Alone(u, i);
    }
  }

  /** `#` at most at the last position. */
  ghost predicate HashLast(s: seq<byte>) {
    forall i :: 0 <= i < |s| - 1 ==> s[i] != HASH
  }

  lemma HashLastSplit(u: seq<byte>, v: seq<byte>)
    ensures HashLast(u + [SLASH] + v) <==> HASH !in u && HashLast(v)
  {
    var s := u + [SLASH] + v;
    if HashLast(s) {
      assert forall i :: 0 <= i < |u| ==> u[i] == s[i];
      forall i | 0 <= i < |v| - 1
        ensures v[i] != HASH
      {
        assert v[i] == s[|u| + 1 + i];
      }
    }
  }

  lemma {:induction false} LevelByLevel(s: seq<byte>)
    ensures AloneAll(s) <==> WholeLevels(Levels(s))
    ensures HASH !in s <==> NoHash(Levels(s))
    ensures AloneAll(s) ==> (HashLast(s) <==> NoHashBeforeLast(Levels(s)))
    decreases |s|
  {
    var k := IndexOf(s, SLASH);
    if k == |s| {
      OneLevel(s);
      AloneOne(s);
    } else {
      var u, v := s[..k], s[k + 1..];
      assert s == u + [SLASH] + v;
      LevelByLevel(v);
      LevelsSplit(u, v);
      assert ([u] + Levels(v))[1..] == Levels(v);
      AloneSplit(u, v);
      AloneOne(u);
      HashLastSplit(u, v);
    }
  }

  /** With each wildcard alone, what the scan for `#` in Topics_isValidName asks for. */
  lemma HashAtAnEnd(s: seq<byte>)
    requires AloneAll(s) && s != []
    ensures ValidName(s) <==> HashLast(s) || HASH !in s[1..]
  {
    if ValidName(s) && !HashLast(s) {
      var i :| 0 <= i < |s| - 1 && s[i] == HASH;
      assert i == 0;
      assert forall j :: 1 <= j < |s| ==> s[j] != HASH;
    }
    if HASH !in s[1..] {
      assert forall j :: 1 <= j < |s| ==> s[j] == s[1..][j - 1];
    }
  }

  /**
   * Topics_isValidName accepts exactly the names in which each wildcard has its level to
   * itself and `#` is only in the last level or, beyond section 4.7.1.2, only in the first.
   */
  lemma ValidByLevels(s: seq<byte>)
    ensures ValidName(s) <==>
            WholeLevels(Levels(s)) && (NoHashBeforeLast(Levels(s)) || NoHash(Levels(s)[1..]))
  {
    LevelByLevel(s);
    if AloneAll(s) && s != [] {
      HashAtAnEnd(s);
      HashInFirst(s);
    }
  }

  lemma HashInFirst(s: seq<byte>)
    requires AloneAll(s) && s != []
    ensures HashLast(s) || HASH !in s[1..] <==> HashLast(s) || NoHash(Levels(s)[1..])
  {
    var k := IndexOf(s, SLASH);
    if k == |s| {
      OneLevel(s);
      AloneOne(s);
    } else {
      var u, v := s[..k], s[k + 1..];
      assert s == u + [SLASH] + v;
      LevelsSplit(u, v);
      LevelByLevel(v);
      AloneSplit(u, v);
      AloneOne(u);
      assert ([u] + Levels(v))[1..] == Levels(v);
      HashBehind(u, v);
      HashLastSplit(u, v);
    }
  }

  lemma HashBehind(u: seq<byte>, v: seq<byte>)
    requires HASH in u ==> |u| == 1
    ensures var s := u + [SLASH] + v;
            if u == [] then HASH in s[1..] <==> HASH in v
            else HASH in s[1..] <==> HASH in u[1..] || HASH in v
  {
    var s := u + [SLASH] + v;
    if u == [] {
      assert s[1..] == v;
    } else {
      assert s[1..] == u[1..] + [SLASH] + v;
    }
  }

  // ---------------------------------------------------------------- section 4.7.1

  /** A topic filter matches a topic name by section 4.7.1, `$` topics apart by 4.7.2. */
  ghost predicate StandardMatch(f: seq<byte>, t: seq<byte>) {
    && !(Head(t, DOLLAR) && (Head(f, PLUS) || Head(f, HASH)))
    && LevelMatch(Levels(f), Levels(t))
  }

  /** `#` only as the last level, as section 4.7.1.2 has it. */
  ghost predicate StandardFilter(f: seq<byte>) {
    f != [] && ValidName(f) && forall i :: 0 <= i < |f| - 1 ==> f[i] != HASH
  }

  /** No empty levels but the one before a leading separator. */
  ghost predicate Clean(s: seq<byte>) {
    s != [] && forall k :: 1 <= k < |Levels(s)| ==> Levels(s)[k] != []
  }

  lemma {:induction false} NothingEmpty(ls: seq<seq<byte>>)
    requires forall k :: 0 <= k < |ls| ==> ls[k] != []
    ensures NonEmpty(ls) == ls
  {
    if ls != [] {
      forall k | 0 <= k < |ls[1..]|
        ensures ls[1..][k] != []
      {
        assert ls[1..][k] == ls[k + 1];
      }
      NothingEmpty(ls[1..]);
    }
  }

  /** In a clean name the tokens are the levels, but for the empty level before a leading separator. */
  lemma CleanTokens(s: seq<byte>)
    requires Clean(s)
    ensures Head(s, SLASH) ==> |Levels(s)| > 1 && Levels(s)[0] == [] && Tokens(s) == Levels(s)[1..]
    ensures !Head(s, SLASH) ==> Levels(s)[0] != [] && Tokens(s) == Levels(s)
  {
    TokensAreNonEmptyLevels(s);
    var ls := Levels(s);
    var k := IndexOf(s, SLASH);
    if Head(s, SLASH) {
      assert k == 0 && s[..0] == [];
      assert forall i :: 0 <= i < |ls[1..]| ==> ls[1..][i] == ls[i + 1];
      NothingEmpty(ls[1..]);
    } else {
      assert k > 0 && |ls[0]| == k;
      NothingEmpty(ls);
    }
  }

  lemma {:induction false} NoWildLevels(t: seq<byte>)
    requires !HasWildcards(t)
    ensures forall k :: 0 <= k < |Levels(t)| ==> !HasWildcards(Levels(t)[k])
    decreases |t|
  {
    var k := IndexOf(t, SLASH);
    if k < |t| {
      assert PLUS !in t[..k] && HASH !in t[..k] && PLUS !in t[k + 1..] && HASH !in t[k + 1..];
      NoWildLevels(t[k + 1..]);
    }
  }

  /** Without wildcards, matching is equality. */
  lemma {:induction false} LiteralMatch(w: seq<seq<byte>>, t: seq<seq<byte>>)
    requires forall k :: 0 <= k < |w| ==> !HasWildcards(w[k])
    ensures LevelMatch(w, t) <==> w == t
  {
    if w != [] {
      assert w[0] != [HASH] && w[0] != [PLUS];
      assert w == [w[0]] + w[1..];
      if t != [] {
        assert t == [t[0]] + t[1..];
        forall k | 0 <= k < |w[1..]|
          ensures !HasWildcards(w[1..][k])
        {
          assert w[1..][k] == w[k + 1];
        }
        LiteralMatch(w[1..], t[1..]);
      }
    }
  }

  /** A leading separator that only the topic has, or a wildcard-first filter on a `$` topic. */
  ghost predicate Mismatched(f: seq<byte>, t: seq<byte>) {
    || (Head(t, SLASH) && !Head(f, SLASH) && f != [HASH])
    || (Head(t, DOLLAR) && Head(f, PLUS))
  }

  /** What the filter would match if the topic's leading separator were not there. */
  ghost predicate MatchesPastSlash(f: seq<byte>, t: seq<byte>) {
    LevelMatch(if Head(f, PLUS) then Levels(f)[1..] else Levels(f), Levels(t)[1..])
  }

  /**
   * On clean names the code agrees with the standard exactly when the pair is not mismatched,
   * or is a mismatch that comes to nothing.
   */
  lemma AgreesWithStandard(f: seq<byte>, t: seq<byte>)
    requires StandardFilter(f) && Clean(f) && Clean(t) && !HasWildcards(t)
    ensures !Mismatched(f, t) ==> (Matches(f, true, t) <==> StandardMatch(f, t))
    ensures Mismatched(f, t) ==>
              ((Matches(f, true, t) <==> StandardMatch(f, t)) <==>
               !(if Head(t, SLASH) then MatchesPastSlash(f, t) else LevelMatch(Levels(f), Levels(t))))
  {
    CleanTokens(f);
    CleanTokens(t);
    assert ValidName(t);
    if f == t {
      NoWildLevels(t);
      LiteralMatch(Levels(f), Levels(t));
    } else if Head(f, HASH) {
      assert |f| == 1 && f == [HASH];
      IndexOfIs(f, SLASH, 1);
      assert Levels(f) == [[HASH]];
    } else if f == [SLASH, HASH] {
      SlashHash();
    } else {
      GuardsAndLevels(f, t);
    }
  }

  lemma SlashHash()
    ensures Levels([SLASH, HASH]) == [[], [HASH]]
  {
    var f := [SLASH, HASH];
    IndexOfIs(f, SLASH, 0);
    IndexOfIs([HASH], SLASH, 1);
    assert f[1..] == [HASH] && f[..0] == [];
  }

  lemma GuardsAndLevels(f: seq<byte>, t: seq<byte>)
    requires StandardFilter(f) && Clean(f) && Clean(t) && !HasWildcards(t) && ValidName(t)
    requires f != t && !Head(f, HASH) && f != [SLASH, HASH]
    ensures !Mismatched(f, t) ==> (Matches(f, true, t) <==> StandardMatch(f, t))
    ensures Mismatched(f, t) ==>
              ((Matches(f, true, t) <==> StandardMatch(f, t)) <==>
               !(if Head(t, SLASH) then MatchesPastSlash(f, t) else LevelMatch(Levels(f), Levels(t))))
  {
    CleanTokens(f);
    CleanTokens(t);
    var lf, lt := Levels(f), Levels(t);
    FirstLevel(f);
    if Head(f, SLASH) && Head(t, SLASH) {
      assert LevelMatch(lf, lt) == LevelMatch(lf[1..], lt[1..]);
    } else if Head(f, SLASH) {
      assert lf[0] == [] && lt[0] != [];
      assert !LevelMatch(lf, lt);
    } else if Head(t, SLASH) {
      assert lt[0] == [] && lf[0] != [HASH] && lf[0] != [];
      if Head(f, PLUS) {
        assert LevelMatch(lf, lt) == LevelMatch(lf[1..], lt[1..]);
      } else {
        assert !LevelMatch(lf, lt);
      }
    }
  }

  /** A wildcard at the head of a valid filter is its whole first level. */
  lemma FirstLevel(f: seq<byte>)
    requires f != [] && ValidName(f)
    ensures Levels(f)[0] == [PLUS] <==> Head(f, PLUS)
    ensures Levels(f)[0] == [HASH] <==> Head(f, HASH)
  {
    var k := IndexOf(f, SLASH);
    assert Levels(f)[0] == f[..k];
    if Wild(f[0]) {
      assert Alone(f, 0);
      IndexOfIs(f, SLASH, 1);
      assert f[..1] == [f[0]];
    } else if k > 0 {
      assert f[..k][0] == f[0];
    }
  }

  // ---------------------------------------------------------------- each hypothesis is needed

  /** Each topic with a leading separator is matched, against the standard, by itself without it. */
  lemma LeadingSlashIsNeeded(t: seq<byte>)
    requires Clean(t) && !HasWildcards(t) && Head(t, SLASH)
    ensures var f := t[1..]; StandardFilter(f) && Matches(f, true, t) && !StandardMatch(f, t)
  {
    var f := t[1..];
    WithoutSlash(t);
    assert forall i :: 0 <= i < |f| ==> f[i] == t[i + 1];
    assert !LevelMatch(Levels(f), Levels(t)) by {
      NoWildLevels(f);
      LiteralMatch(Levels(f), Levels(t));
    }
    assert LevelMatch(Tokens(f), Tokens(t)) by {
      LevelMatchItself(t);
    }
  }

  /** A clean name without its leading separator: the same tokens, one level fewer. */
  lemma WithoutSlash(t: seq<byte>)
    requires Clean(t) && Head(t, SLASH)
    ensures t[1..] != [] && Tokens(t[1..]) == Tokens(t) && |Levels(t)| == 1 + |Levels(t[1..])|
  {
    var f := t[1..];
    CleanTokens(t);
    assert IndexOf(t, SLASH) == 0;
    assert t[..0] == [] && Levels(t) == [[]] + Levels(f);
    assert forall j :: 0 <= j < |Levels(f)| ==> Levels(f)[j] == Levels(t)[j + 1];
    TokensAreNonEmptyLevels(f);
    NothingEmpty(Levels(f));
  }

  /** Each `$` topic is matched, against the standard, by `+` in place of its first level. */
  lemma DollarIsNeeded(t: seq<byte>)
    requires Clean(t) && !HasWildcards(t) && Head(t, DOLLAR)
    ensures var f := [PLUS] + t[IndexOf(t, SLASH)..];
            StandardFilter(f) && Matches(f, true, t) && !StandardMatch(f, t)
  {
    var k := IndexOf(t, SLASH);
    var f := [PLUS] + t[k..];
    assert forall i :: 1 <= i < |f| ==> f[i] == t[k + i - 1];
    IndexOfIs(f, SLASH, 1);
    assert f[1..] == t[k..] && f[..1] == [PLUS];
    assert Tokens(f) == [[PLUS]] + Tokens(t[k..]);
    assert Tokens(t) == [t[..k]] + Tokens(t[k..]);
    assert ValidName(f);
    LevelMatchItself(t[k..]);
  }

  /** An empty level in the middle of a list of levels. */
  lemma ExtraLevel(a: seq<seq<byte>>, b: seq<seq<byte>>)
    ensures NonEmpty(a + ([[]] + b)) == NonEmpty(a + b)
  {
    NonEmptyJoin(a, [[]] + b);
    NonEmptyJoin(a, b);
    assert ([[]] + b)[1..] == b;
    assert NonEmpty([[]] + b) == [] + NonEmpty(b);
  }

  lemma LevelsOfDouble(u: seq<byte>, v: seq<byte>)
    ensures Levels(u + [SLASH, SLASH] + v) == Levels(u) + ([[]] + Levels(v))
  {
    var rest := [SLASH] + v;
    assert u + [SLASH, SLASH] + v == u + [SLASH] + rest;
    LevelsJoin(u, rest);
    assert rest[..0] == [] && rest[1..] == v && IndexOf(rest, SLASH) == 0;
  }

  /** Of two names, one with `//` for `/`, each as a filter matches the other, against the standard. */
  lemma EmptyLevelsAreNeeded(u: seq<byte>, v: seq<byte>)
    requires !HasWildcards(u) && !HasWildcards(v)
    ensures var one, two := u + [SLASH] + v, u + [SLASH, SLASH] + v;
            && Matches(one, true, two) && !StandardMatch(one, two)
            && Matches(two, true, one) && !StandardMatch(two, one)
  {
    var one, two := u + [SLASH] + v, u + [SLASH, SLASH] + v;
    LevelsJoin(u, v);
    LevelsOfDouble(u, v);
    ExtraLevel(Levels(u), Levels(v));
    assert !HasWildcards(one) && !HasWildcards(two);
    SameTokensMatch(one, two);
    SameTokensMatch(two, one);
  }

  /** The same for a separator at the end. */
  lemma TrailingSlashIsNeeded(u: seq<byte>)
    requires !HasWildcards(u) && u != []
    ensures && Matches(u, true, u + [SLASH]) && !StandardMatch(u, u + [SLASH])
            && Matches(u + [SLASH], true, u) && !StandardMatch(u + [SLASH], u)
  {
    assert u + [SLASH] + [] == u + [SLASH];
    LevelsJoin(u, []);
    assert Levels([]) == [[]];
    ExtraLevel(Levels(u), []);
    var empty: seq<seq<byte>> := [[]];
    assert empty + [] == empty && Levels(u) + [] == Levels(u);
    SameTokensMatch(u, u + [SLASH]);
    SameTokensMatch(u + [SLASH], u);
  }

  lemma SameTokensMatch(f: seq<byte>, t: seq<byte>)
    requires !HasWildcards(f) && !HasWildcards(t) && f != [] && t != [] && f != t
    requires Head(f, SLASH) == Head(t, SLASH)
    requires NonEmpty(Levels(f)) == NonEmpty(Levels(t)) && |Levels(f)| != |Levels(t)|
    ensures Matches(f, true, t) && !StandardMatch(f, t)
  {
    assert Tokens(f) == Tokens(t) by {
      TokensAreNonEmptyLevels(f);
      TokensAreNonEmptyLevels(t);
    }
    LevelMatchItself(t);
    assert !LevelMatch(Levels(f), Levels(t)) by {
      NoWildLevels(f);
      LiteralMatch(Levels(f), Levels(t));
    }
  }

  lemma LevelMatchItself(t: seq<byte>)
    requires !HasWildcards(t)
    ensures LevelMatch(Tokens(t), Tokens(t))
  {
    NoWildTokens(t);
    LiteralMatch(Tokens(t), Tokens(t));
  }

  lemma {:induction false} NoWildTokens(t: seq<byte>)
    requires !HasWildcards(t)
    ensures forall k :: 0 <= k < |Tokens(t)| ==> !HasWildcards(Tokens(t)[k])
    decreases |t|
  {
    if t != [] {
      var k := if t[0] == SLASH then 1 else IndexOf(t, SLASH);
      assert PLUS !in t[..k] && HASH !in t[..k] && PLUS !in t[k..] && HASH !in t[k..];
      NoWildTokens(t[k..]);
    }
  }
}
