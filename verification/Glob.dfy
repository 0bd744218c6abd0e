/** Allowlist patterns: `is_glob_match`, crates/flanforge-utils/src/lib.rs. */
module Glob {
  import opened Base

  const STAR: byte := 42
  const QUESTION: byte := 63

  /** The recursive meaning of a pattern: `*` is any run of bytes, `?` exactly one byte, and every
      other byte itself. */
  predicate Matches(p: seq<byte>, v: seq<byte>)
    decreases |p|, |v|
  {
    if p == [] then v == []
    else if p[0] == STAR then Matches(p[1..], v) || (v != [] && Matches(p, v[1..]))
    else v != [] && Fits(p[0], v[0]) && Matches(p[1..], v[1..])
  }

  predicate Fits(p: byte, v: byte) {
    p == QUESTION || p == v
  }

  /** Position by position, without a star. */
  predicate FitsAll(p: seq<byte>, v: seq<byte>) {
    |p| == |v| && STAR !in p && forall i :: 0 <= i < |p| ==> Fits(p[i], v[i])
  }

  // ---------------------------------------------------------------- the meaning of a star

  lemma {:induction false} StarIsAnySuffix(p: seq<byte>, v: seq<byte>)
    requires p != [] && p[0] == STAR
    ensures Matches(p, v) <==> exists k :: 0 <= k <= |v| && Matches(p[1..], v[k..])
    decreases |v|
  {
    assert v[0..] == v;
    if Matches(p, v) && !Matches(p[1..], v) {
      StarIsAnySuffix(p, v[1..]);
      var k :| 0 <= k <= |v[1..]| && Matches(p[1..], v[1..][k..]);
      assert v[1..][k..] == v[k + 1..];
    }
    if k :| 0 <= k <= |v| && Matches(p[1..], v[k..]) {
      if k > 0 {
        assert v[1..][k - 1..] == v[k..];
        StarIsAnySuffix(p, v[1..]);
      }
    }
  }

  /** A star-free stretch consumes exactly its own length. */
  lemma {:induction false} LiteralPrefix(a: seq<byte>, b: seq<byte>, v: seq<byte>)
    requires STAR !in a
    ensures Matches(a + b, v) <==> |a| <= |v| && FitsAll(a, v[..|a|]) && Matches(b, v[|a|..])
  {
    if a == [] {
      assert a + b == b && v[0..] == v;
    } else {
      assert (a + b)[0] == a[0] && (a + b)[1..] == a[1..] + b;
      if v != [] {
        LiteralPrefix(a[1..], b, v[1..]);
        if |a| <= |v| {
          assert v[1..][..|a| - 1] == v[..|a|][1..] && v[1..][|a| - 1..] == v[|a|..];
          FitsAllCons(a, v[..|a|]);
        }
      }
    }
  }

  lemma FitsAllCons(a: seq<byte>, v: seq<byte>)
    requires a != [] && |a| == |v| && STAR !in a
    ensures FitsAll(a, v) <==> Fits(a[0], v[0]) && FitsAll(a[1..], v[1..])
  {
    if Fits(a[0], v[0]) && FitsAll(a[1..], v[1..]) {
      forall i | 0 <= i < |a| ensures Fits(a[i], v[i]) {
        assert i > 0 ==> a[i] == a[1..][i - 1] && v[i] == v[1..][i - 1];
      }
    }
  }

  /** One backtrack point is enough: once a second star is reached, giving the first one more
      bytes can only match what the second star matches anyway. */
  lemma LaterStarSubsumes(p: seq<byte>, a: seq<byte>, b: seq<byte>, v: seq<byte>)
    requires p != [] && p[0] == STAR && p[1..] == a + b
    requires STAR !in a && b != [] && b[0] == STAR && |a| <= |v| && v != []
    requires Matches(p, v[1..])
    ensures Matches(b, v[|a|..])
  {
    var k := PieceLength(p, v[1..]);
    assert v[1..][k..] == v[k + 1..];
    LaterStarTakesOver(a, b, v, k + 1);
  }

  lemma LaterStarTakesOver(a: seq<byte>, b: seq<byte>, v: seq<byte>, n: nat)
    requires STAR !in a && b != [] && b[0] == STAR && |a| <= |v| && n <= |v|
    requires Matches(a + b, v[n..])
    ensures Matches(b, v[|a|..])
  {
    LiteralPrefix(a, b, v[n..]);
    assert v[n..][|a|..] == v[|a|..][n..];
    StarAbsorbs(b, v[|a|..], n);
  }

  /** A leading star takes any bytes put before what the pattern matches. */
  lemma {:induction false} StarAbsorbs(p: seq<byte>, v: seq<byte>, n: nat)
    requires p != [] && p[0] == STAR && n <= |v| && Matches(p, v[n..])
    ensures Matches(p, v)
    decreases n
  {
    if n == 0 {
      assert v[0..] == v;
    } else {
      assert v[1..][n - 1..] == v[n..];
      StarAbsorbs(p, v[1..], n - 1);
    }
  }

  // ---------------------------------------------------------------- the loop

  /** What is left to try: go on from here, or give the last star one more byte. */
  ghost predicate Open(p: seq<byte>, v: seq<byte>, at: nat, pos: nat, star: Option<nat>, resume: nat)
    requires at <= |p| && pos <= |v| && (star.Some? ==> star.value < |p|) && resume <= |v|
  {
    Matches(p[at..], v[pos..]) || (star.Some? && resume < |v| && Matches(p[star.value..], v[resume + 1..]))
  }

  /** Everything between the last star and here fitted, and there is no star in between. */
  ghost predicate Aligned(p: seq<byte>, v: seq<byte>, at: nat, pos: nat, star: Option<nat>, resume: nat) {
    && at <= |p| && pos <= |v| && resume <= pos
    && (star.Some? ==> star.value < at && p[star.value] == STAR && at - star.value - 1 == pos - resume &&
                       FitsAll(p[star.value + 1..at], v[resume..pos]))
  }

  lemma StarStep(p: seq<byte>, v: seq<byte>, at: nat, pos: nat, star: Option<nat>, resume: nat)
    requires Aligned(p, v, at, pos, star, resume) && at < |p| && pos < |v| && p[at] == STAR
    ensures Open(p, v, at, pos, star, resume) <==> Open(p, v, at + 1, pos, Some(at), pos)
    ensures Aligned(p, v, at + 1, pos, Some(at), pos)
  {
    assert p[at..][1..] == p[at + 1..] && v[pos..][1..] == v[pos + 1..];
    if star.Some? && Matches(p[star.value..], v[resume + 1..]) {
      var a := p[star.value + 1..at];
      assert p[star.value..][1..] == a + p[at..];
      assert v[resume..][1..] == v[resume + 1..] && v[resume..][|a|..] == v[pos..];
      LaterStarSubsumes(p[star.value..], a, p[at..], v[resume..]);
    }
  }

  lemma FitStep(p: seq<byte>, v: seq<byte>, at: nat, pos: nat, star: Option<nat>, resume: nat)
    requires Aligned(p, v, at, pos, star, resume) && at < |p| && pos < |v| && p[at] != STAR && Fits(p[at], v[pos])
    ensures Open(p, v, at, pos, star, resume) <==> Open(p, v, at + 1, pos + 1, star, resume)
    ensures Aligned(p, v, at + 1, pos + 1, star, resume)
  {
    assert p[at..][1..] == p[at + 1..] && v[pos..][1..] == v[pos + 1..];
    if star.Some? {
      assert p[star.value + 1..at + 1] == p[star.value + 1..at] + [p[at]];
      assert v[resume..pos + 1] == v[resume..pos] + [v[pos]];
    }
  }

  lemma BacktrackStep(p: seq<byte>, v: seq<byte>, at: nat, pos: nat, star: nat, resume: nat)
    requires Aligned(p, v, at, pos, Some(star), resume) && pos < |v|
    requires at == |p| || (p[at] != STAR && !Fits(p[at], v[pos]))
    ensures Open(p, v, at, pos, Some(star), resume) <==> Open(p, v, star + 1, resume + 1, Some(star), resume + 1)
    ensures Aligned(p, v, star + 1, resume + 1, Some(star), resume + 1)
  {
    assert p[star..][1..] == p[star + 1..] && v[resume + 1..][0..] == v[resume + 1..];
    if resume + 1 < |v| {
      assert v[resume + 1..][1..] == v[resume + 2..];
    }
  }

  lemma {:induction false} OnlyStarsMatchNothing(p: seq<byte>)
    ensures Matches(p, []) <==> forall i :: 0 <= i < |p| ==> p[i] == STAR
  {
    if p != [] {
      OnlyStarsMatchNothing(p[1..]);
      if forall i :: 0 <= i < |p[1..]| ==> p[1..][i] == STAR {
        forall i | 1 <= i < |p| ensures p[i] == STAR {
          assert p[i] == p[1..][i - 1];
        }
      }
    }
  }

  lemma PendingStarIsSpent(p: seq<byte>, v: seq<byte>, at: nat, star: Option<nat>, resume: nat)
    requires Aligned(p, v, at, |v|, star, resume)
    ensures Open(p, v, at, |v|, star, resume) <==> Matches(p[at..], [])
  {
    assert v[|v|..] == [];
    if star.Some? && resume < |v| && Matches(p[star.value..], v[resume + 1..]) {
      var a := p[star.value + 1..at];
      StarIsAnySuffix(p[star.value..], v[resume + 1..]);
      var k :| 0 <= k <= |v| - resume - 1 && Matches(p[star.value..][1..], v[resume + 1..][k..]);
      assert p[star.value..][1..] == a + p[at..];
      LiteralPrefix(a, p[at..], v[resume + 1..][k..]);
    }
  }

  /** The loop invariant: the fitted stretch, the open question, and the rounds spent. */
  ghost predicate Searching(p: seq<byte>, v: seq<byte>, at: nat, pos: nat, star: Option<nat>, resume: nat,
      rounds: nat) {
    && Aligned(p, v, at, pos, star, resume)
    && (Open(p, v, at, pos, star, resume) <==> Matches(p, v))
    && rounds <= Passes(resume, |p| + 1) + at
  }

  lemma Started(p: seq<byte>, v: seq<byte>)
    ensures Searching(p, v, 0, 0, None, 0, 0)
  {
    assert p[0..] == p && v[0..] == v;
  }

  lemma StarRound(p: seq<byte>, v: seq<byte>, at: nat, pos: nat, star: Option<nat>, resume: nat, rounds: nat)
    requires Searching(p, v, at, pos, star, resume, rounds) && at < |p| && pos < |v| && p[at] == STAR
    ensures Searching(p, v, at + 1, pos, Some(at), pos, rounds + 1)
  {
    StarStep(p, v, at, pos, star, resume);
    MorePasses(resume, pos, |p| + 1);
  }

  lemma FitRound(p: seq<byte>, v: seq<byte>, at: nat, pos: nat, star: Option<nat>, resume: nat, rounds: nat)
    requires Searching(p, v, at, pos, star, resume, rounds) && at < |p| && pos < |v| && p[at] != STAR &&
        Fits(p[at], v[pos])
    ensures Searching(p, v, at + 1, pos + 1, star, resume, rounds + 1)
  {
    FitStep(p, v, at, pos, star, resume);
  }

  lemma BacktrackRound(p: seq<byte>, v: seq<byte>, at: nat, pos: nat, star: nat, resume: nat, rounds: nat)
    requires Searching(p, v, at, pos, Some(star), resume, rounds) && pos < |v|
    requires at == |p| || (p[at] != STAR && !Fits(p[at], v[pos]))
    ensures Searching(p, v, star + 1, resume + 1, Some(star), resume + 1, rounds + 1)
  {
    BacktrackStep(p, v, at, pos, star, resume);
    MorePasses(resume, resume + 1, |p| + 1);
  }

  lemma Stuck(p: seq<byte>, v: seq<byte>, at: nat, pos: nat, resume: nat, rounds: nat)
    requires Searching(p, v, at, pos, None, resume, rounds) && pos < |v|
    requires at == |p| || (p[at] != STAR && !Fits(p[at], v[pos]))
    ensures !Matches(p, v) && rounds + 1 <= (|v| + 1) * (|p| + 1)
  {
    RoundsSpent(p, v, at, pos, None, resume, rounds);
  }

  lemma Finished(p: seq<byte>, v: seq<byte>, at: nat, star: Option<nat>, resume: nat, rounds: nat)
    requires Searching(p, v, at, |v|, star, resume, rounds)
    ensures Matches(p, v) <==> Matches(p[at..], [])
    ensures rounds <= (|v| + 1) * (|p| + 1)
  {
    PendingStarIsSpent(p, v, at, star, resume);
    RoundsSpent(p, v, at, |v|, star, resume, rounds);
  }

  lemma RoundsSpent(p: seq<byte>, v: seq<byte>, at: nat, pos: nat, star: Option<nat>, resume: nat, rounds: nat)
    requires Searching(p, v, at, pos, star, resume, rounds)
    ensures rounds < (|v| + 1) * (|p| + 1)
  {
    RoundsBound(rounds, resume, at, |p| + 1, |v|);
  }

  /** The iterative matcher with its single backtrack point decides the recursive meaning, for all
      byte strings, in at most (|value| + 1) * (|pattern| + 1) rounds of its loop. */
  method IsGlobMatch(pattern: seq<byte>, value: seq<byte>) returns (matched: bool, ghost rounds: nat)
    ensures matched <==> Matches(pattern, value)
    ensures rounds <= (|value| + 1) * (|pattern| + 1)
  {
    var p: nat, v: nat := 0, 0;
    var star: Option<nat>, resume: nat := None, 0;
    rounds := 0;
    Started(pattern, value);
    while v < |value|
      invariant Searching(pattern, value, p, v, star, resume, rounds)
      decreases |pattern| - (if star.Some? then star.value + 1 else 0), |value| - resume, |value| - v
    {
      if p < |pattern| && pattern[p] == STAR {
        StarRound(pattern, value, p, v, star, resume, rounds);
        star, resume, p := Some(p), v, p + 1;
      } else if p < |pattern| && Fits(pattern[p], value[v]) {
        FitRound(pattern, value, p, v, star, resume, rounds);
        p, v := p + 1, v + 1;
      } else if star.Some? {
        BacktrackRound(pattern, value, p, v, star.value, resume, rounds);
        p := star.value + 1;
        resume := resume + 1;
        v := resume;
      } else {
        Stuck(pattern, value, p, v, resume, rounds);
        return false, rounds + 1;
      }
      rounds := rounds + 1;
    }
    Finished(pattern, value, p, star, resume, rounds);
    matched := IsOnlyStars(pattern, p);
  }

  /** What is left of the pattern can stand for nothing. */
  method IsOnlyStars(pattern: seq<byte>, from: nat) returns (only: bool)
    requires from <= |pattern|
    ensures only <==> Matches(pattern[from..], [])
  {
    OnlyStarsMatchNothing(pattern[from..]);
    for i := from to |pattern|
      invariant forall j :: from <= j < i ==> pattern[j] == STAR
    {
      if pattern[i] != STAR {
        assert pattern[from..][i - from] != STAR;
        return false;
      }
    }
    only := true;
  }

  /** `n` passes over a pattern of the given width. */
  ghost function Passes(n: nat, width: nat): nat {
    if n == 0 then 0 else Passes(n - 1, width) + width
  }

  lemma {:induction false} PassesIsProduct(n: nat, width: nat)
    ensures Passes(n, width) == n * width
  {
    if n > 0 {
      PassesIsProduct(n - 1, width);
    }
  }

  lemma {:induction false} MorePasses(a: nat, b: nat, width: nat)
    requires a <= b
    ensures Passes(a, width) <= Passes(b, width)
    ensures a < b ==> Passes(a, width) + width <= Passes(b, width)
    decreases b
  {
    if a < b {
      MorePasses(a, b - 1, width);
    }
  }

  lemma RoundsBound(rounds: nat, resume: nat, p: nat, width: nat, n: nat)
    requires rounds <= Passes(resume, width) + p && p < width && resume <= n
    ensures rounds < (n + 1) * width
  {
    MorePasses(resume, n + 1, width);
    PassesIsProduct(n + 1, width);
  }

  // ---------------------------------------------------------------- what patterns authorize

  /** The declarative meaning: the value splits into one piece per pattern byte. */
  ghost predicate Splits(p: seq<byte>, pieces: seq<seq<byte>>, v: seq<byte>) {
    && |pieces| == |p|
    && Joined(pieces) == v
    && (forall i :: 0 <= i < |p| ==> p[i] == STAR || (|pieces[i]| == 1 && Fits(p[i], pieces[i][0])))
  }

  function Joined(pieces: seq<seq<byte>>): seq<byte> {
    if pieces == [] then [] else pieces[0] + Joined(pieces[1..])
  }

  /** A pattern matches exactly the values that split into pieces its bytes allow. */
  lemma {:induction false} MatchesIsSplitting(p: seq<byte>, v: seq<byte>)
    ensures Matches(p, v) <==> exists pieces :: Splits(p, pieces, v)
    decreases |p|
  {
    if p == [] {
      assert Matches(p, v) ==> Splits(p, [], v);
    } else {
      if Matches(p, v) {
        var k := PieceLength(p, v);
        MatchesIsSplitting(p[1..], v[k..]);
        var rest :| Splits(p[1..], rest, v[k..]);
        SplitsFirst(p, v, k, rest);
      }
      if pieces :| Splits(p, pieces, v) {
        var k := SplitsRest(p, v, pieces);
        MatchesIsSplitting(p[1..], v[k..]);
        PieceMatches(p, v, k);
      }
    }
  }

  lemma SplitsFirst(p: seq<byte>, v: seq<byte>, k: nat, rest: seq<seq<byte>>)
    requires p != [] && k <= |v| && Splits(p[1..], rest, v[k..]) && (p[0] == STAR || (k == 1 && Fits(p[0], v[0])))
    ensures Splits(p, [v[..k]] + rest, v)
  {
    var pieces := [v[..k]] + rest;
    assert pieces[1..] == rest && v == v[..k] + v[k..];
    forall i | 1 <= i < |p| ensures p[i] == STAR || (|pieces[i]| == 1 && Fits(p[i], pieces[i][0])) {
      assert p[i] == p[1..][i - 1] && pieces[i] == rest[i - 1];
    }
  }

  lemma SplitsRest(p: seq<byte>, v: seq<byte>, pieces: seq<seq<byte>>) returns (k: nat)
    requires p != [] && Splits(p, pieces, v)
    ensures k <= |v| && Splits(p[1..], pieces[1..], v[k..]) && (p[0] == STAR || (k == 1 && Fits(p[0], v[0])))
  {
    k := |pieces[0]|;
    assert v[k..] == Joined(pieces[1..]) && v[..k] == pieces[0];
    assert p[0] == STAR || v[0] == pieces[0][0];
  }

  lemma PieceMatches(p: seq<byte>, v: seq<byte>, k: nat)
    requires p != [] && k <= |v| && Matches(p[1..], v[k..]) && (p[0] == STAR || (k == 1 && Fits(p[0], v[0])))
    ensures Matches(p, v)
  {
    if p[0] == STAR {
      StarIsAnySuffix(p, v);
    }
  }

  lemma PieceLength(p: seq<byte>, v: seq<byte>) returns (k: nat)
    requires p != [] && Matches(p, v)
    ensures k <= |v| && Matches(p[1..], v[k..])
    ensures p[0] == STAR || (k == 1 && Fits(p[0], v[0]))
  {
    if p[0] == STAR {
      StarIsAnySuffix(p, v);
      k :| 0 <= k <= |v| && Matches(p[1..], v[k..]);
    } else {
      k := 1;
    }
  }

  /** A literal entry is a pattern matching only itself. */
  lemma LiteralMatchesOnlyItself(p: seq<byte>, v: seq<byte>)
    requires 42 !in p && 63 !in p
    ensures Matches(p, v) <==> v == p
  {
    LiteralPrefix(p, [], v);
    assert p + [] == p;
    if |p| <= |v| && FitsAll(p, v[..|p|]) {
      assert v[..|p|] == p;
    }
    assert v == p ==> v[..|p|] == p;
  }

  /** The migration of a retired prefix entry: appending `*` accepts exactly the values that start
      with it. */
  lemma PrefixMigration(p: seq<byte>, v: seq<byte>)
    requires 42 !in p && 63 !in p
    ensures Matches(p + [42], v) <==> p <= v
  {
    LiteralPrefix(p, [STAR], v);
    if |p| <= |v| {
      StarIsAnySuffix([STAR], v[|p|..]);
      assert v[|p|..][|v| - |p|..] == [] && [STAR][1..] == [];
      assert Matches([STAR], v[|p|..]);
      if FitsAll(p, v[..|p|]) {
        assert v[..|p|] == p;
      }
    }
  }

  /** `?` is one byte, so a pattern of question marks fixes the byte length; a two-byte UTF-8
      character needs two of them. */
  lemma QuestionMarksCountBytes(p: seq<byte>, v: seq<byte>)
    requires forall i :: 0 <= i < |p| ==> p[i] == 63
    ensures Matches(p, v) <==> |v| == |p|
  {
    LiteralPrefix(p, [], v);
    assert p + [] == p;
  }
}
