/** Topic names and filters: src/mqtt_topics.c. Strings are C strings without their zero byte. */
module Topics {
  import opened Bytes

  const SLASH: byte := 0x2F
  const PLUS: byte := 0x2B
  const HASH: byte := 0x23
  const DOLLAR: byte := 0x24

  predicate Head(s: seq<byte>, c: byte) {
    s != [] && s[0] == c
  }

  /** Topics_hasWildcards. */
  predicate HasWildcards(s: seq<byte>) {
    PLUS in s || HASH in s
  }

  // ---------------------------------------------------------------- valid names

  predicate Wild(c: byte) {
    c == PLUS || c == HASH
  }

  /** The neighbours of position `i`, if any, are separators. */
  predicate Alone(s: seq<byte>, i: int)
    requires 0 <= i < |s|
  {
    (0 < i ==> s[i - 1] == SLASH) && (i + 1 < |s| ==> s[i + 1] == SLASH)
  }

  /** What Topics_isValidName decides, position by position. */
  predicate ValidName(s: seq<byte>) {
    && (forall i :: 0 <= i < |s| && Wild(s[i]) ==> Alone(s, i))
    && (forall i :: 0 <= i < |s| && s[i] == HASH ==> i == 0 || i == |s| - 1)
    && (forall i, j :: 0 <= i < j < |s| && s[i] == HASH ==> s[j] != HASH)
  }

  /** strchr(s + from, c), as a position in s; |s| when there is none. */
  method StrChr(s: seq<byte>, c: byte, from: nat) returns (k: nat)
    requires from <= |s|
    ensures from <= k <= |s|
    ensures forall i :: from <= i < k ==> s[i] != c
    ensures k < |s| ==> s[k] == c
  {
    k := from;
    while k < |s| && s[k] != c
      invariant from <= k <= |s|
      invariant forall i :: from <= i < k ==> s[i] != c
    {
      k := k + 1;
    }
  }

  /** One of the two scans for a wildcard that is not alone in its level. */
  method AllAlone(name: seq<byte>, c: byte) returns (rc: bool)
    ensures rc <==> forall i :: 0 <= i < |name| && name[i] == c ==> Alone(name, i)
  {
    rc := true;
    var pos := StrChr(name, c, 0);
    while pos < |name|
      invariant pos <= |name| && (pos < |name| ==> name[pos] == c)
      invariant rc <==> forall i :: 0 <= i < pos && name[i] == c ==> Alone(name, i)
      decreases |name| - pos
    {
      if pos > 0 && name[pos - 1] != SLASH {
        rc := false;
      }
      if pos + 1 < |name| && name[pos + 1] != SLASH {
        rc := false;
      }
      ghost var was := pos;
      assert rc <==> forall i :: 0 <= i < was + 1 && name[i] == c ==> Alone(name, i);
      pos := StrChr(name, c, pos + 1);
    }
  }

  method IsValidName(name: seq<byte>) returns (rc: bool)
    ensures rc <==> ValidName(name)
  {
    rc := true;
    var hashpos := StrChr(name, HASH, 0);
    if hashpos < |name| {
      var second := StrChr(name, HASH, hashpos + 1);
      if (hashpos != 0 && hashpos != |name| - 1) || second < |name| {
        rc := false;
      }
    }
    assert rc <==> (forall i :: 0 <= i < |name| && name[i] == HASH ==> i == 0 || i == |name| - 1)
                   && (forall i, j :: 0 <= i < j < |name| && name[i] == HASH ==> name[j] != HASH);
    var hashes := AllAlone(name, HASH);
    var pluses := AllAlone(name, PLUS);
    rc := rc && hashes && pluses;
  }

  // ---------------------------------------------------------------- levels and tokens

  /** The levels of a name: what lies between separators, empty levels included. */
  function Levels(s: seq<byte>): (r: seq<seq<byte>>)
    ensures r != []
    decreases |s|
  {
    var k := IndexOf(s, SLASH);
    if k == |s| then [s] else [s[..k]] + Levels(s[k + 1..])
  }

  /** The tokens that strtok_r finds one after the other: it never yields an empty one. */
  function Tokens(s: seq<byte>): (r: seq<seq<byte>>)
    decreases |s|
  {
    if s == [] then []
    else if s[0] == SLASH then Tokens(s[1..])
    else [s[..IndexOf(s, SLASH)]] + Tokens(s[IndexOf(s, SLASH)..])
  }

  function NonEmpty(ls: seq<seq<byte>>): seq<seq<byte>> {
    if ls == [] then [] else (if ls[0] == [] then [] else [ls[0]]) + NonEmpty(ls[1..])
  }

  /** The tokens are the levels without the empty ones. */
  lemma {:induction false} TokensAreNonEmptyLevels(s: seq<byte>)
    ensures Tokens(s) == NonEmpty(Levels(s))
    decreases |s|
  {
    var k := IndexOf(s, SLASH);
    if k == |s| {
      if s != [] {
        assert s[..k] == s && s[k..] == [];
      }
    } else if k == 0 {
      TokensAreNonEmptyLevels(s[1..]);
      assert s[..0] == [];
      assert Levels(s)[1..] == Levels(s[1..]);
    } else {
      TokensAreNonEmptyLevels(s[k + 1..]);
      assert s[k..][0] == SLASH && s[k..][1..] == s[k + 1..];
      assert Levels(s)[1..] == Levels(s[k + 1..]);
    }
  }

  /** What is left to match when strtok_r has found `tok`, with `rest` behind it. */
  function Ahead(tok: Option<seq<byte>>, rest: seq<seq<byte>>): seq<seq<byte>> {
    if tok.Some? then [tok.value] + rest else []
  }

  /** The leading separators that strtok_r passes over. */
  method SkipSlashes(s: seq<byte>, last: nat) returns (last': nat)
    requires last <= |s|
    ensures last <= last' <= |s| && !Head(s[last'..], SLASH)
    ensures Tokens(s[last'..]) == Tokens(s[last..])
  {
    last' := last;
    while last' < |s| && s[last'] == SLASH
      invariant last <= last' <= |s|
      invariant Tokens(s[last..]) == Tokens(s[last'..])
    {
      assert s[last'..][1..] == s[last' + 1..];
      last' := last' + 1;
    }
  }

  lemma FirstToken(s: seq<byte>, begin: nat, end: nat)
    requires begin < end <= |s| && (end < |s| ==> s[end] == SLASH)
    requires forall i :: begin <= i < end ==> s[i] != SLASH
    ensures Tokens(s[begin..]) == [s[begin..end]] + Tokens(s[end..])
  {
    IndexOfIs(s[begin..], SLASH, end - begin);
    assert s[begin..][..end - begin] == s[begin..end];
    assert s[begin..][end - begin..] == s[end..];
  }

  /** strtok_r with the position it has reached in place of the pointer it keeps. */
  method StrTokR(s: seq<byte>, last: nat) returns (tok: Option<seq<byte>>, last': nat)
    requires last <= |s|
    ensures last <= last' <= |s| && (tok.Some? ==> last < last')
    ensures Tokens(s[last..]) == Ahead(tok, Tokens(s[last'..]))
  {
    var begin := SkipSlashes(s, last);
    if begin == |s| {
      return None, begin;
    }
    assert s[begin] == s[begin..][0];
    last' := StrChr(s, SLASH, begin);
    FirstToken(s, begin, last');
    return Some(s[begin..last']), last';
  }

  // ---------------------------------------------------------------- reversal

  function Rev(s: seq<byte>): (r: seq<byte>)
    ensures |r| == |s|
    ensures forall i :: 0 <= i < |s| ==> r[i] == s[|s| - 1 - i]
  {
    if s == [] then [] else Rev(s[1..]) + [s[0]]
  }

  /** The reversed entries, last one first. */
  function RevAll(ts: seq<seq<byte>>): (r: seq<seq<byte>>)
    ensures |r| == |ts|
    ensures forall i :: 0 <= i < |ts| ==> r[i] == Rev(ts[|ts| - 1 - i])
  {
    if ts == [] then [] else RevAll(ts[1..]) + [Rev(ts[0])]
  }

  lemma RevRev(s: seq<byte>)
    ensures Rev(Rev(s)) == s
  {
  }

  lemma RevJoin(a: seq<byte>, b: seq<byte>)
    ensures Rev(a + [SLASH] + b) == Rev(b) + [SLASH] + Rev(a)
  {
  }

  /** _strrev, on the characters before the terminating zero. */
  method StrRev(astr: array<byte>)
    modifies astr
    ensures astr[..] == Rev(old(astr[..]))
  {
    var forwards := 0;
    var len := astr.Length;
    if len > 1 {
      var backwards := len - 1;
      while forwards < backwards
        invariant 0 <= forwards <= backwards + 1 && backwards == len - 1 - forwards
        invariant forall k :: 0 <= k < forwards || backwards < k < len ==> astr[k] == old(astr[..])[len - 1 - k]
        invariant forall k :: forwards <= k <= backwards ==> astr[k] == old(astr[..])[k]
      {
        var temp := astr[forwards];
        astr[forwards] := astr[backwards];
        forwards := forwards + 1;
        astr[backwards] := temp;
        backwards := backwards - 1;
      }
    }
  }

  /** The first separator cuts off the first level. */
  lemma LevelsSplit(u: seq<byte>, v: seq<byte>)
    requires SLASH !in u
    ensures Levels(u + [SLASH] + v) == [u] + Levels(v)
  {
    var s := u + [SLASH] + v;
    IndexOfIs(s, SLASH, |u|);
    assert s[..|u|] == u && s[|u| + 1..] == v;
  }

  lemma OneLevel(u: seq<byte>)
    requires SLASH !in u
    ensures Levels(u) == [u]
  {
    IndexOfIs(u, SLASH, |u|);
  }

  lemma {:induction false} LevelsJoin(a: seq<byte>, b: seq<byte>)
    ensures Levels(a + [SLASH] + b) == Levels(a) + Levels(b)
    decreases |a|
  {
    var k := IndexOf(a, SLASH);
    if k == |a| {
      LevelsSplit(a, b);
      OneLevel(a);
    } else {
      var u, v := a[..k], a[k + 1..];
      assert a == u + [SLASH] + v;
      assert a + [SLASH] + b == u + [SLASH] + (v + [SLASH] + b);
      LevelsSplit(u, v + [SLASH] + b);
      LevelsSplit(u, v);
      LevelsJoin(v, b);
      Associate([u], Levels(v), Levels(b));
    }
  }

  lemma {:induction false} LevelsReversed(s: seq<byte>)
    ensures Levels(Rev(s)) == RevAll(Levels(s))
    decreases |s|
  {
    var k := IndexOf(s, SLASH);
    if k == |s| {
      OneLevel(s);
      OneLevel(Rev(s));
      RevAllStep(s, []);
    } else {
      var u, v := s[..k], s[k + 1..];
      assert s == u + [SLASH] + v;
      RevJoin(u, v);
      LevelsSplit(u, v);
      LevelsJoin(Rev(v), Rev(u));
      LevelsReversed(v);
      OneLevel(Rev(u));
      RevAllStep(u, Levels(v));
    }
  }

  lemma RevAllStep(t: seq<byte>, ts: seq<seq<byte>>)
    ensures RevAll([t] + ts) == RevAll(ts) + [Rev(t)]
  {
    assert ([t] + ts)[1..] == ts;
  }

  lemma {:induction false} NonEmptyJoin(a: seq<seq<byte>>, b: seq<seq<byte>>)
    ensures NonEmpty(a + b) == NonEmpty(a) + NonEmpty(b)
  {
    if a == [] {
      assert a + b == b;
    } else {
      assert (a + b)[1..] == a[1..] + b;
      NonEmptyJoin(a[1..], b);
    }
  }

  lemma {:induction false} NonEmptyReversed(ls: seq<seq<byte>>)
    ensures NonEmpty(RevAll(ls)) == RevAll(NonEmpty(ls))
  {
    if ls != [] {
      var t := ls[0];
      NonEmptyReversed(ls[1..]);
      NonEmptyJoin(RevAll(ls[1..]), [Rev(t)]);
      NonEmptyOne(Rev(t));
      if t == [] {
        assert NonEmpty(ls) == NonEmpty(ls[1..]);
      } else {
        RevAllStep(t, NonEmpty(ls[1..]));
      }
    }
  }

  lemma NonEmptyOne(t: seq<byte>)
    ensures NonEmpty([t]) == if t == [] then [] else [t]
  {
    assert [t][1..] == [];
  }

  /** The reversal trick: reversing the string reverses the list of tokens, and each token. */
  lemma TokensReversed(s: seq<byte>)
    ensures Tokens(Rev(s)) == RevAll(Tokens(s))
  {
    TokensAreNonEmptyLevels(s);
    TokensAreNonEmptyLevels(Rev(s));
    LevelsReversed(s);
    NonEmptyReversed(Levels(s));
  }

  // ---------------------------------------------------------------- matching

  /** The walk over filter levels and topic levels, in step. */
  function LevelMatch(w: seq<seq<byte>>, t: seq<seq<byte>>): bool {
    if w == [] then t == []
    else if w[0] == [HASH] then true
    else if t == [] then false
    else (w[0] == [PLUS] || w[0] == t[0]) && LevelMatch(w[1..], t[1..])
  }

  /** Topics_matches, with the loop as LevelMatch. */
  predicate Matches(filter: seq<byte>, wildcards: bool, topic: seq<byte>) {
    if !wildcards then filter == topic
    else if HasWildcards(topic) || !ValidName(filter) || !ValidName(topic) then false
    else if filter == topic then true
    else if filter == [HASH] then !Head(topic, DOLLAR)
    else if filter == [SLASH, HASH] then Head(topic, SLASH)
    else if Head(filter, SLASH) && !Head(topic, SLASH) then false
    else if Head(filter, PLUS) && Head(topic, SLASH) then false
    else if Head(filter, HASH) then LevelMatch(Tokens(Rev(filter)), Tokens(Rev(topic)))
    else LevelMatch(Tokens(filter), Tokens(topic))
  }

  lemma MatchStep(w: Option<seq<byte>>, ws: seq<seq<byte>>, t: Option<seq<byte>>, ts: seq<seq<byte>>)
    ensures w.None? ==> (LevelMatch(Ahead(w, ws), Ahead(t, ts)) <==> t.None?)
    ensures w.Some? && w.value == [HASH] ==> LevelMatch(Ahead(w, ws), Ahead(t, ts))
    ensures w.Some? && w.value != [HASH] ==>
              (LevelMatch(Ahead(w, ws), Ahead(t, ts)) <==>
               t.Some? && (w.value == [PLUS] || w.value == t.value) && LevelMatch(ws, ts))
  {
    if w.Some? {
      assert Ahead(w, ws)[1..] == ws;
    }
    if t.Some? {
      assert Ahead(t, ts)[1..] == ts;
    }
  }

  /** The token loop of Topics_matches, from the first two calls of strtok_r on. */
  method MatchTokens(wild: seq<byte>, topic: seq<byte>) returns (rc: bool)
    ensures rc == LevelMatch(Tokens(wild), Tokens(topic))
  {
    ghost var goal := LevelMatch(Tokens(wild), Tokens(topic));
    assert wild[0..] == wild && topic[0..] == topic;
    rc := false;
    var pwild, last1 := StrTokR(wild, 0);
    var pmatch, last2 := StrTokR(topic, 0);
    while pwild.Some?
      invariant 0 <= last1 <= |wild| && 0 <= last2 <= |topic| && !rc
      invariant LevelMatch(Ahead(pwild, Tokens(wild[last1..])), Ahead(pmatch, Tokens(topic[last2..]))) == goal
      decreases |wild| - last1, if pwild.Some? then 1 else 0
    {
      MatchStep(pwild, Tokens(wild[last1..]), pmatch, Tokens(topic[last2..]));
      if pwild.value == [HASH] {
        rc := true;
        break;
      }
      if pmatch.Some? {
        if pwild.value != [PLUS] && pwild.value != pmatch.value {
          break;
        }
      } else {
        break;
      }
      pwild, last1 := StrTokR(wild, last1);
      pmatch, last2 := StrTokR(topic, last2);
    }
    MatchStep(pwild, Tokens(wild[last1..]), pmatch, Tokens(topic[last2..]));
    if pmatch.None? && pwild.None? {
      rc := true;
    }
  }

  method TopicsMatch(filter: seq<byte>, wildcards: bool, topic: seq<byte>) returns (rc: bool)
    ensures rc == Matches(filter, wildcards, topic)
  {
    if !wildcards {
      return filter == topic;
    }
    if HasWildcards(topic) {
      return false;
    }
    var ok := IsValidName(filter);
    if !ok {
      return false;
    }
    ok := IsValidName(topic);
    if !ok {
      return false;
    }
    if filter == topic {
      return true;
    }
    if filter == [HASH] {
      return !Head(topic, DOLLAR);
    }
    if filter == [SLASH, HASH] {
      return Head(topic, SLASH);
    }
    if Head(filter, SLASH) && !Head(topic, SLASH) {
      return false;
    }
    if Head(filter, PLUS) && Head(topic, SLASH) {
      return false;
    }
    if Head(filter, HASH) {
      var w := new byte[|filter|](i requires 0 <= i < |filter| => filter[i]);
      var t := new byte[|topic|](i requires 0 <= i < |topic| => topic[i]);
      assert w[..] == filter && t[..] == topic;
      StrRev(w);
      StrRev(t);
      rc := MatchTokens(w[..], t[..]);
    } else {
      rc := MatchTokens(filter, topic);
    }
  }
}
