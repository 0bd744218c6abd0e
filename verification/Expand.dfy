/** Environment placeholders in configuration strings: `expand_string`,
    crates/flanforge-config/src/expand.rs. */
module Expand {
  import opened Base

  const DOLLAR: byte := 36
  const OPEN: byte := 123
  const CLOSE: byte := 125
  const COLON: byte := 58
  const DASH: byte := 45
  const MAX_EXPANDED: nat := 65536

  type Text = seq<byte>
  type Environment = Text -> Option<Text>

  datatype ExpandError = InvalidPlaceholder | MissingEnvironment(name: Text) | ExpansionTooLarge

  // ---------------------------------------------------------------- searching

  predicate PairAt(s: Text, a: byte, b: byte, i: nat) {
    i + 1 < |s| && s[i] == a && s[i + 1] == b
  }

  /** The first place two bytes stand together. */
  function FindPair(s: Text, a: byte, b: byte): (r: Option<nat>)
    ensures r.Some? ==> r.value + 1 < |s|
  {
    if |s| < 2 then None
    else if s[0] == a && s[1] == b then Some(0)
    else
      var rest := FindPair(s[1..], a, b);
      if rest.None? then None else Some(rest.value + 1)
  }

  function FindByte(s: Text, b: byte): (r: Option<nat>)
    ensures r.Some? ==> r.value < |s|
  {
    if s == [] then None
    else if s[0] == b then Some(0)
    else
      var rest := FindByte(s[1..], b);
      if rest.None? then None else Some(rest.value + 1)
  }

  ghost predicate NoPairBefore(s: Text, a: byte, b: byte, n: nat) {
    forall i :: 0 <= i < n ==> !PairAt(s, a, b, i)
  }

  lemma {:induction false} PairFound(s: Text, a: byte, b: byte)
    ensures match FindPair(s, a, b)
            case Some(i) => PairAt(s, a, b, i) && NoPairBefore(s, a, b, i)
            case None => NoPairBefore(s, a, b, |s|)
    decreases |s|
  {
    if |s| >= 2 && !(s[0] == a && s[1] == b) {
      PairFound(s[1..], a, b);
      assert forall i :: 1 <= i < |s| ==> (PairAt(s, a, b, i) <==> PairAt(s[1..], a, b, i - 1));
    }
  }

  lemma FirstPair(s: Text, a: byte, b: byte, i: nat)
    requires PairAt(s, a, b, i) && NoPairBefore(s, a, b, i)
    ensures FindPair(s, a, b) == Some(i)
  {
    PairFound(s, a, b);
  }

  lemma NoPair(s: Text, a: byte, b: byte)
    requires NoPairBefore(s, a, b, |s|)
    ensures FindPair(s, a, b).None?
  {
    PairFound(s, a, b);
  }

  lemma {:induction false} ByteFound(s: Text, b: byte)
    ensures match FindByte(s, b)
            case Some(i) => s[i] == b && b !in s[..i]
            case None => b !in s
    decreases |s|
  {
    if s != [] && s[0] != b {
      ByteFound(s[1..], b);
      assert s == [s[0]] + s[1..];
      if FindByte(s[1..], b).Some? {
        var i := FindByte(s[1..], b).value;
        assert s[..i + 1] == [s[0]] + s[1..][..i];
      }
    }
  }

  lemma {:induction false} FirstByte(s: Text, b: byte, rest: Text)
    requires b !in s
    ensures FindByte(s + [b] + rest, b) == Some(|s|)
    decreases |s|
  {
    var t := s + [b] + rest;
    if s != [] {
      assert t[0] == s[0] && t[1..] == s[1..] + [b] + rest;
      FirstByte(s[1..], b, rest);
    }
  }

  // ---------------------------------------------------------------- the grammar

  predicate IsNameByte(b: byte) {
    97 <= b <= 122 || 65 <= b <= 90 || 48 <= b <= 57 || b == 95
  }

  predicate IsEnvironmentName(name: Text) {
    name != [] && !(48 <= name[0] <= 57) && forall i :: 0 <= i < |name| ==> IsNameByte(name[i])
  }

  /** What a string is made of. */
  datatype Piece = Literal(bytes: Text) | Place(name: Text, fallback: Option<Text>) | Broken

  /** The inside of one placeholder: a name, or a name and what stands in for it. */
  function Placeholder(inside: Text): Piece {
    var k := FindPair(inside, COLON, DASH);
    var name := if k.Some? then inside[..k.value] else inside;
    if !IsEnvironmentName(name) then Broken
    else Place(name, if k.Some? then Some(inside[k.value + 2..]) else None)
  }

  /** The string cut at its placeholders; the first malformed one ends the cutting. */
  function Pieces(s: Text): (ps: seq<Piece>)
    ensures |ps| >= 1 && ps[0].Literal?
    decreases |s|
  {
    var i := FindPair(s, DOLLAR, OPEN);
    if i.None? then [Literal(s)]
    else
      var inside := s[i.value + 2..];
      var j := FindByte(inside, CLOSE);
      if j.None? || Placeholder(inside[..j.value]).Broken? then [Literal(s[..i.value]), Broken]
      else [Literal(s[..i.value]), Placeholder(inside[..j.value])] + Pieces(inside[j.value + 1..])
  }

  /** What stands between the braces. */
  function Inside(n: Text, d: Option<Text>): Text {
    if d.Some? then n + [COLON, DASH] + d.value else n
  }

  lemma PiecesAt(s: Text, i: nat, j: nat)
    requires FindPair(s, DOLLAR, OPEN) == Some(i) && FindByte(s[i + 2..], CLOSE) == Some(j)
    ensures var p := Placeholder(s[i + 2..][..j]);
            Pieces(s) == if p.Broken? then [Literal(s[..i]), Broken]
                else [Literal(s[..i]), p] + Pieces(s[i + 2..][j + 1..])
  {
  }

  function Spelled(p: Piece): Text {
    match p
    case Literal(b) => b
    case Place(n, d) => [DOLLAR, OPEN] + Inside(n, d) + [CLOSE]
    case Broken => []
  }

  function SpelledAll(ps: seq<Piece>): Text {
    if ps == [] then [] else Spelled(ps[0]) + SpelledAll(ps[1..])
  }

  predicate PieceOk(p: Piece) {
    match p
    case Literal(b) => FindPair(b, DOLLAR, OPEN).None?
    case Place(n, d) => IsEnvironmentName(n) && (d.Some? ==> CLOSE !in d.value)
    case Broken => false
  }

  /** Literals and placeholders take turns, and each is spelled so that it reads back. */
  predicate WellFormed(ps: seq<Piece>) {
    |ps| % 2 == 1 && forall i :: 0 <= i < |ps| ==> PieceOk(ps[i]) && ps[i].Literal? == (i % 2 == 0)
  }

  lemma NameHasNoPunctuation(n: Text)
    requires IsEnvironmentName(n)
    ensures COLON !in n && CLOSE !in n && FindPair(n, COLON, DASH).None?
  {
    assert forall i :: 0 <= i < |n| ==> IsNameByte(n[i]);
    NoPair(n, COLON, DASH);
  }

  /** One placeholder reads back as itself. */
  lemma PlaceholderRoundTrip(n: Text, d: Option<Text>)
    requires PieceOk(Place(n, d))
    ensures Placeholder(Inside(n, d)) == Place(n, d) && CLOSE !in Inside(n, d)
  {
    NameHasNoPunctuation(n);
    if d.Some? {
      var inside := n + [COLON, DASH] + d.value;
      assert inside[|n|] == COLON && inside[|n| + 1] == DASH;
      forall j | 0 <= j < |n| ensures !PairAt(inside, COLON, DASH, j) {
        assert inside[j] == n[j];
      }
      FirstPair(inside, COLON, DASH, |n|);
      assert inside[..|n|] == n && inside[|n| + 2..] == d.value;
    }
  }

  lemma CutAtPlaceholder(b: Text, n: Text, d: Option<Text>, rest: Text)
    requires PieceOk(Literal(b)) && PieceOk(Place(n, d))
    ensures Pieces(b + Spelled(Place(n, d)) + rest) == [Literal(b), Place(n, d)] + Pieces(rest)
  {
    var inside := Inside(n, d);
    var tail := inside + [CLOSE] + rest;
    var s := b + [DOLLAR, OPEN] + tail;
    SpelledInside(b, n, d, rest);
    OpensAt(b, tail);
    assert s[|b| + 2..] == tail && s[..|b|] == b;
    PlaceholderRoundTrip(n, d);
    FirstByte(inside, CLOSE, rest);
    assert tail[..|inside|] == inside && tail[|inside| + 1..] == rest;
    PiecesAt(s, |b|, |inside|);
  }

  lemma SpelledInside(b: Text, n: Text, d: Option<Text>, rest: Text)
    ensures b + Spelled(Place(n, d)) + rest == b + [DOLLAR, OPEN] + (Inside(n, d) + [CLOSE] + rest)
  {
    var inside := Inside(n, d);
    assert b + ([DOLLAR, OPEN] + inside + [CLOSE]) + rest == b + [DOLLAR, OPEN] + (inside + [CLOSE] + rest);
  }

  lemma OpensAt(b: Text, tail: Text)
    requires PieceOk(Literal(b))
    ensures FindPair(b + [DOLLAR, OPEN] + tail, DOLLAR, OPEN) == Some(|b|)
  {
    var s := b + [DOLLAR, OPEN] + tail;
    PairFound(b, DOLLAR, OPEN);
    assert s[|b|] == DOLLAR && s[|b| + 1] == OPEN;
    forall j | 0 <= j < |b| ensures !PairAt(s, DOLLAR, OPEN, j) {
      assert s[j] == b[j];
      if j + 1 < |b| {
        assert s[j + 1] == b[j + 1] && !PairAt(b, DOLLAR, OPEN, j);
      }
    }
    FirstPair(s, DOLLAR, OPEN, |b|);
  }

  /** Spelling out well-formed pieces and cutting them again gives them back. */
  lemma {:induction false} CutSpelled(ps: seq<Piece>)
    requires WellFormed(ps)
    ensures Pieces(SpelledAll(ps)) == ps
    decreases |ps|
  {
    var b := ps[0].bytes;
    assert PieceOk(ps[0]);
    if |ps| == 1 {
      assert SpelledAll(ps) == b + [] == b;
      assert ps == [Literal(b)];
    } else {
      var rest := ps[2..];
      assert WellFormed(rest) by {
        forall i | 0 <= i < |rest| ensures PieceOk(rest[i]) && rest[i].Literal? == (i % 2 == 0) {
          assert rest[i] == ps[i + 2];
        }
      }
      CutSpelled(rest);
      assert ps[1..][1..] == rest && ps[1..][0] == ps[1];
      assert SpelledAll(ps) == b + (Spelled(ps[1]) + SpelledAll(rest)) == b + Spelled(ps[1]) + SpelledAll(rest);
      assert PieceOk(ps[1]);
      CutAtPlaceholder(b, ps[1].name, ps[1].fallback, SpelledAll(rest));
      assert ps == [Literal(b), ps[1]] + rest;
    }
  }

  /** Cutting loses nothing: an unbroken cut is well-formed and spells the string. */
  lemma {:induction false} SpelledCut(s: Text)
    requires Broken !in Pieces(s)
    ensures WellFormed(Pieces(s)) && SpelledAll(Pieces(s)) == s
    decreases |s|
  {
    var i := FindPair(s, DOLLAR, OPEN);
    if i.None? {
      LiteralAlone(s);
    } else {
      var inside := s[i.value + 2..];
      var j := FindByte(inside, CLOSE);
      if j.None? || Placeholder(inside[..j.value]).Broken? {
        BrokenPieces(s);
      } else {
        RestUnbroken(s, i.value, j.value);
        SpelledCut(inside[j.value + 1..]);
        SpelledRound(s, i.value, j.value);
      }
    }
  }

  lemma LiteralAlone(s: Text)
    requires FindPair(s, DOLLAR, OPEN).None?
    ensures WellFormed(Pieces(s)) && SpelledAll(Pieces(s)) == s
  {
    assert SpelledAll([Literal(s)]) == s + [] == s;
  }

  lemma RestUnbroken(s: Text, i: nat, j: nat)
    requires FindPair(s, DOLLAR, OPEN) == Some(i) && FindByte(s[i + 2..], CLOSE) == Some(j)
    requires !Placeholder(s[i + 2..][..j]).Broken? && Broken !in Pieces(s)
    ensures Broken !in Pieces(s[i + 2..][j + 1..])
  {
    PiecesAt(s, i, j);
  }

  lemma BrokenPieces(s: Text)
    requires FindPair(s, DOLLAR, OPEN).Some?
    requires var inside := s[FindPair(s, DOLLAR, OPEN).value + 2..];
             FindByte(inside, CLOSE).None? || Placeholder(inside[..FindByte(inside, CLOSE).value]).Broken?
    ensures Broken in Pieces(s) && Pieces(s) == [Literal(s[..FindPair(s, DOLLAR, OPEN).value]), Broken]
  {
    assert Pieces(s)[1] == Broken;
  }

  lemma SpelledRound(s: Text, i: nat, j: nat)
    requires FindPair(s, DOLLAR, OPEN) == Some(i) && FindByte(s[i + 2..], CLOSE) == Some(j)
    requires !Placeholder(s[i + 2..][..j]).Broken?
    requires var rest := s[i + 2..][j + 1..]; WellFormed(Pieces(rest)) && SpelledAll(Pieces(rest)) == rest
    ensures WellFormed(Pieces(s)) && SpelledAll(Pieces(s)) == s
  {
    var inside := s[i + 2..];
    var p, rest := Placeholder(inside[..j]), inside[j + 1..];
    PairFound(s, DOLLAR, OPEN);
    ByteFound(inside, CLOSE);
    SpelledPlaceholder(inside[..j]);
    LiteralHead(s, i);
    PiecesAt(s, i, j);
    WellFormedCons(Literal(s[..i]), p, Pieces(rest));
    SpelledCons(Literal(s[..i]), p, Pieces(rest));
    Regrouped(s, i, j);
  }

  lemma Regrouped(s: Text, i: nat, j: nat)
    requires PairAt(s, DOLLAR, OPEN, i) && i + 2 + j < |s| && s[i + 2 + j] == CLOSE
    ensures s == s[..i] + ([DOLLAR, OPEN] + s[i + 2..][..j] + [CLOSE]) + s[i + 2..][j + 1..]
  {
    assert s[i + 2..][..j] == s[i + 2..i + 2 + j] && s[i + 2..][j + 1..] == s[i + 3 + j..];
  }

  lemma LiteralHead(s: Text, i: nat)
    requires FindPair(s, DOLLAR, OPEN) == Some(i)
    ensures PieceOk(Literal(s[..i]))
  {
    PairFound(s, DOLLAR, OPEN);
    forall j | 0 <= j < i ensures !PairAt(s[..i], DOLLAR, OPEN, j) {
      assert !PairAt(s, DOLLAR, OPEN, j);
    }
    NoPair(s[..i], DOLLAR, OPEN);
  }

  lemma SpelledPlaceholder(inside: Text)
    requires CLOSE !in inside && !Placeholder(inside).Broken?
    ensures Placeholder(inside).Place? && PieceOk(Placeholder(inside))
    ensures Spelled(Placeholder(inside)) == [DOLLAR, OPEN] + inside + [CLOSE]
  {
    var k := FindPair(inside, COLON, DASH);
    PairFound(inside, COLON, DASH);
    if k.Some? {
      assert inside == inside[..k.value] + [COLON, DASH] + inside[k.value + 2..];
    }
  }

  lemma WellFormedCons(a: Piece, b: Piece, rest: seq<Piece>)
    requires a.Literal? && PieceOk(a) && b.Place? && PieceOk(b) && WellFormed(rest)
    ensures WellFormed([a, b] + rest)
  {
    var ps := [a, b] + rest;
    forall i | 0 <= i < |ps| ensures PieceOk(ps[i]) && ps[i].Literal? == (i % 2 == 0) {
      if i >= 2 {
        assert ps[i] == rest[i - 2];
      }
    }
  }

  lemma SpelledCons(a: Piece, b: Piece, rest: seq<Piece>)
    ensures SpelledAll([a, b] + rest) == Spelled(a) + Spelled(b) + SpelledAll(rest)
  {
    var ps := [a, b] + rest;
    assert ps[1..] == [b] + rest && ps[1..][1..] == rest;
  }

  // ---------------------------------------------------------------- the meaning

  /** What one piece stands for. An empty variable yields to a given fallback. */
  function Value(p: Piece, env: Environment): Result<Text, ExpandError> {
    match p
    case Literal(b) => Ok(b)
    case Broken => Err(InvalidPlaceholder)
    case Place(n, d) =>
      match (env(n), d)
      case (Some(v), Some(f)) => Ok(if v == [] then f else v)
      case (Some(v), None) => Ok(v)
      case (None, Some(f)) => Ok(f)
      case (None, None) => Err(MissingEnvironment(n))
  }

  /** The expansion without a size limit: values in order, or the first error. */
  function Meaning(ps: seq<Piece>, env: Environment): Result<Text, ExpandError> {
    if ps == [] then Ok([])
    else
      match Value(ps[0], env)
      case Err(e) => Err(e)
      case Ok(v) => After(v, Meaning(ps[1..], env))
  }

  function After(front: Text, r: Result<Text, ExpandError>): Result<Text, ExpandError> {
    if r.Ok? then Ok(front + r.value) else r
  }

  /** After some placeholder, before any error, the text is already over the limit. */
  predicate Overflows(ps: seq<Piece>, env: Environment, used: nat) {
    ps != [] && Value(ps[0], env).Ok? &&
    ((ps[0].Place? && used + |Value(ps[0], env).value| > MAX_EXPANDED) ||
     Overflows(ps[1..], env, used + |Value(ps[0], env).value|))
  }

  lemma {:induction false} OverflowIsFinal(ps: seq<Piece>, env: Environment, used: nat)
    requires Overflows(ps, env, used) && Meaning(ps, env).Ok?
    ensures used + |Meaning(ps, env).value| > MAX_EXPANDED
    decreases |ps|
  {
    var v := Value(ps[0], env).value;
    if !(ps[0].Place? && used + |v| > MAX_EXPANDED) {
      OverflowIsFinal(ps[1..], env, used + |v|);
    }
  }

  /** The early exit never changes which inputs succeed or with what: the result is Ok exactly when
      the unlimited expansion is and fits; and the size error is raised exactly for a prefix that is
      too long before anything else is wrong, or for a whole that is. */
  ghost predicate Expands(input: Text, env: Environment, r: Result<Text, ExpandError>) {
    var all := Meaning(Pieces(input), env);
    && (r.Ok? <==> all.Ok? && |all.value| <= MAX_EXPANDED)
    && (r.Ok? ==> r == all)
    && (r == Err(ExpansionTooLarge) <==> Overflows(Pieces(input), env, 0) || (all.Ok? && |all.value| > MAX_EXPANDED))
    && (r.Err? && r.error != ExpansionTooLarge ==> r == all)
  }

  /** What the loop keeps: the rest of the input, after the output so far, still means the whole. */
  ghost predicate Expanding(input: Text, env: Environment, output: Text, remaining: Text) {
    && |output| <= MAX_EXPANDED
    && Meaning(Pieces(input), env) == After(output, Meaning(Pieces(remaining), env))
    && Overflows(Pieces(input), env, 0) == Overflows(Pieces(remaining), env, |output|)
  }

  /** The source's loop. */
  method ExpandString(input: Text, env: Environment) returns (r: Result<Text, ExpandError>)
    ensures Expands(input, env, r)
    ensures r.Ok? <==> Meaning(Pieces(input), env).Ok? && |Meaning(Pieces(input), env).value| <= 65536
  {
    var output: Text, remaining := [], input;
    AfterNothing(Meaning(Pieces(input), env));
    while FindPair(remaining, DOLLAR, OPEN).Some?
      invariant Expanding(input, env, output, remaining)
      decreases |remaining|
    {
      var start := FindPair(remaining, DOLLAR, OPEN).value;
      var front, expression := remaining[..start], remaining[start + 2..];
      var end := FindByte(expression, CLOSE);
      if end.None? || Placeholder(expression[..end.value]).Broken? {
        BrokenRound(input, env, output, remaining);
        return Err(InvalidPlaceholder);
      }
      var value := Value(Placeholder(expression[..end.value]), env);
      Round(input, env, output, remaining);
      if value.Err? {
        return Err(value.error);
      }
      output := output + front + value.value;
      if |output| > MAX_EXPANDED {
        return Err(ExpansionTooLarge);
      }
      remaining := expression[end.value + 1..];
    }
    Ends(input, env, output, remaining);
    output := output + remaining;
    if |output| > MAX_EXPANDED {
      return Err(ExpansionTooLarge);
    }
    r := Ok(output);
  }

  lemma Fails(input: Text, env: Environment, output: Text, remaining: Text, e: ExpandError)
    requires Expanding(input, env, output, remaining) && e != ExpansionTooLarge
    requires Meaning(Pieces(remaining), env) == Err(e) && !Overflows(Pieces(remaining), env, |output|)
    ensures Expands(input, env, Err(e))
  {
  }

  lemma Ends(input: Text, env: Environment, output: Text, remaining: Text)
    requires Expanding(input, env, output, remaining) && FindPair(remaining, DOLLAR, OPEN).None?
    ensures Expands(input, env, if |output + remaining| > MAX_EXPANDED then Err(ExpansionTooLarge)
        else Ok(output + remaining))
  {
    LastRound(remaining, env, output);
  }

  lemma TooLarge(input: Text, env: Environment)
    requires Overflows(Pieces(input), env, 0)
    ensures Expands(input, env, Err(ExpansionTooLarge))
  {
    if Meaning(Pieces(input), env).Ok? {
      OverflowIsFinal(Pieces(input), env, 0);
    }
  }

  lemma BrokenRound(input: Text, env: Environment, output: Text, remaining: Text)
    requires Expanding(input, env, output, remaining) && FindPair(remaining, DOLLAR, OPEN).Some?
    requires var inside := remaining[FindPair(remaining, DOLLAR, OPEN).value + 2..];
             FindByte(inside, CLOSE).None? || Placeholder(inside[..FindByte(inside, CLOSE).value]).Broken?
    ensures Expands(input, env, Err(InvalidPlaceholder))
  {
    BrokenPieces(remaining);
    assert Pieces(remaining)[1..] == [Broken];
    Fails(input, env, output, remaining, InvalidPlaceholder);
  }

  /** One placeholder: an error, a text over the limit, or the loop's invariant again. */
  lemma Round(input: Text, env: Environment, output: Text, remaining: Text)
    requires Expanding(input, env, output, remaining) && FindPair(remaining, DOLLAR, OPEN).Some?
    requires var inside := remaining[FindPair(remaining, DOLLAR, OPEN).value + 2..];
             FindByte(inside, CLOSE).Some? && !Placeholder(inside[..FindByte(inside, CLOSE).value]).Broken?
    ensures var i := FindPair(remaining, DOLLAR, OPEN).value;
            var inside := remaining[i + 2..];
            var j := FindByte(inside, CLOSE).value;
            var value := Value(Placeholder(inside[..j]), env);
            if value.Err? then Expands(input, env, Err(value.error))
            else
              var more := output + remaining[..i] + value.value;
              if |more| > MAX_EXPANDED then Expands(input, env, Err(ExpansionTooLarge))
              else Expanding(input, env, more, inside[j + 1..])
  {
    PlaceRound(remaining, env, output);
    var i := FindPair(remaining, DOLLAR, OPEN).value;
    var inside := remaining[i + 2..];
    var value := Value(Placeholder(inside[..FindByte(inside, CLOSE).value]), env);
    if value.Err? {
      Fails(input, env, output, remaining, value.error);
    } else if |output + remaining[..i] + value.value| > MAX_EXPANDED {
      TooLarge(input, env);
    }
  }

  lemma AfterNothing(r: Result<Text, ExpandError>)
    ensures After([], r) == r
  {
    if r.Ok? {
      assert [] + r.value == r.value;
    }
  }

  lemma PlaceRound(s: Text, env: Environment, output: Text)
    requires FindPair(s, DOLLAR, OPEN).Some?
    requires var inside := s[FindPair(s, DOLLAR, OPEN).value + 2..];
             FindByte(inside, CLOSE).Some? && !Placeholder(inside[..FindByte(inside, CLOSE).value]).Broken?
    ensures var i := FindPair(s, DOLLAR, OPEN).value;
            var inside := s[i + 2..];
            var j := FindByte(inside, CLOSE).value;
            var value := Value(Placeholder(inside[..j]), env);
            if value.Err? then Meaning(Pieces(s), env) == Err(value.error) && !Overflows(Pieces(s), env, |output|)
            else
              var more := output + s[..i] + value.value;
              && After(output, Meaning(Pieces(s), env)) == After(more, Meaning(Pieces(inside[j + 1..]), env))
              && (Overflows(Pieces(s), env, |output|) <==>
                  |more| > MAX_EXPANDED || Overflows(Pieces(inside[j + 1..]), env, |more|))
  {
    var i := FindPair(s, DOLLAR, OPEN).value;
    var inside := s[i + 2..];
    var j := FindByte(inside, CLOSE).value;
    var p := Placeholder(inside[..j]);
    PiecesAt(s, i, j);
    TwoPieces(s[..i], p, Pieces(inside[j + 1..]), env, output);
  }

  lemma TwoPieces(front: Text, p: Piece, rest: seq<Piece>, env: Environment, output: Text)
    requires p.Place?
    ensures var ps := [Literal(front), p] + rest;
            var value := Value(p, env);
            if value.Err? then Meaning(ps, env) == Err(value.error) && !Overflows(ps, env, |output|)
            else
              var more := output + front + value.value;
              && After(output, Meaning(ps, env)) == After(more, Meaning(rest, env))
              && (Overflows(ps, env, |output|) <==> |more| > MAX_EXPANDED || Overflows(rest, env, |more|))
  {
    var ps := [Literal(front), p] + rest;
    var tail := [p] + rest;
    assert ps[1..] == tail && tail[1..] == rest && ps[0] == Literal(front) && tail[0] == p;
    assert Meaning(ps, env) == After(front, Meaning(tail, env));
    assert Overflows(ps, env, |output|) == Overflows(tail, env, |output| + |front|);
    if Value(p, env).Ok? && Meaning(rest, env).Ok? {
      var v, m := Value(p, env).value, Meaning(rest, env).value;
      assert output + (front + (v + m)) == output + front + v + m;
    }
  }

  lemma LastRound(s: Text, env: Environment, output: Text)
    requires FindPair(s, DOLLAR, OPEN).None?
    ensures After(output, Meaning(Pieces(s), env)) == Ok(output + s) && !Overflows(Pieces(s), env, |output|)
  {
    assert Pieces(s) == [Literal(s)] && [Literal(s)][1..] == [];
    assert s + [] == s;
  }

  /** Which names are names, in bytes: letters, digits and underscores, and no digit in front. Anything else
      alone between the braces is refused. */
  lemma NamesAreRefusedExactly(n: Text, env: Environment, r: Result<Text, ExpandError>)
    requires 125 !in n && forall i :: 0 < i < |n| ==> n[i - 1] != 58 || n[i] != 45
    requires Expands([36, 123] + n + [125], env, r)
    ensures r == Err(InvalidPlaceholder) <==>
            || n == [] || 48 <= n[0] <= 57
            || exists b :: b in n && !(97 <= b <= 122 || 65 <= b <= 90 || 48 <= b <= 57 || b == 95)
  {
    forall i | 0 <= i < |n| ensures !PairAt(n, COLON, DASH, i) {
      assert i + 1 < |n| ==> n[i + 1 - 1] != 58 || n[i + 1] != 45;
    }
    NoPair(n, COLON, DASH);
    RefusedAlone(n, env, r);
    forall i | 0 <= i < |n| ensures n[i] in n {
    }
  }

  /** A placeholder with a fallback, alone, in bytes: the value, or the fallback when that is unset or
      empty. */
  lemma FallbackStandsIn(n: Text, f: Text, env: Environment, r: Result<Text, ExpandError>)
    requires IsEnvironmentName(n) && 125 !in f
    requires Expands([36, 123] + n + [58, 45] + f + [125], env, r)
    ensures var shown := if env(n).Some? && env(n).value != [] then env(n).value else f;
            r == if |shown| <= 65536 then Ok(shown) else Err(ExpansionTooLarge)
  {
    FallbackAlone(n, f);
    FallbackMeans(n, f, env);
  }

  lemma FallbackAlone(n: Text, f: Text)
    requires IsEnvironmentName(n) && CLOSE !in f
    ensures Pieces([36, 123] + n + [58, 45] + f + [125]) == [Literal([]), Place(n, Some(f)), Literal([])]
  {
    CutAtPlaceholder([], n, Some(f), []);
    SpelledFallback(n, f);
    assert Pieces([]) == [Literal([])];
  }

  lemma SpelledFallback(n: Text, f: Text)
    ensures [] + Spelled(Place(n, Some(f))) + [] == [36, 123] + n + [58, 45] + f + [125]
  {
    assert Spelled(Place(n, Some(f))) == [DOLLAR, OPEN] + (n + [COLON, DASH] + f) + [CLOSE];
  }

  lemma FallbackMeans(n: Text, f: Text, env: Environment)
    ensures Meaning([Literal([]), Place(n, Some(f)), Literal([])], env) ==
            Ok(if env(n).Some? && env(n).value != [] then env(n).value else f)
  {
    var ps, last := [Literal([]), Place(n, Some(f)), Literal([])], [Literal([])];
    var shown := if env(n).Some? && env(n).value != [] then env(n).value else f;
    assert ps[1..] == [Place(n, Some(f))] + last && ps[1..][1..] == last && last[1..] == [];
    assert Meaning(last, env) == Ok([]);
    assert Meaning(ps[1..], env) == Ok(shown + []);
    assert [] + (shown + []) == shown;
  }

  lemma RefusedAlone(n: Text, env: Environment, r: Result<Text, ExpandError>)
    requires CLOSE !in n && FindPair(n, COLON, DASH).None?
    requires Expands([DOLLAR, OPEN] + n + [CLOSE], env, r)
    ensures r == Err(InvalidPlaceholder) <==> !IsEnvironmentName(n)
  {
    if IsEnvironmentName(n) {
      NameAlone(n);
      MeaningIsRendered([Literal([]), Place(n, None), Literal([])], env);
    } else {
      NoNameAlone(n);
      assert [Literal([]), Broken][1..] == [Broken];
    }
  }

  lemma NameAlone(n: Text)
    requires IsEnvironmentName(n)
    ensures Pieces([DOLLAR, OPEN] + n + [CLOSE]) == [Literal([]), Place(n, None), Literal([])]
  {
    CutAtPlaceholder([], n, None, []);
    assert [] + Spelled(Place(n, None)) + [] == [DOLLAR, OPEN] + n + [CLOSE];
    assert Pieces([]) == [Literal([])];
  }

  lemma NoNameAlone(n: Text)
    requires CLOSE !in n && FindPair(n, COLON, DASH).None? && !IsEnvironmentName(n)
    ensures Pieces([DOLLAR, OPEN] + n + [CLOSE]) == [Literal([]), Broken]
  {
    var s := [DOLLAR, OPEN] + n + [CLOSE];
    FirstByte(n, CLOSE, []);
    assert s[2..] == n + [CLOSE] + [] && s[2..][..|n|] == n;
    assert FindPair(s, DOLLAR, OPEN) == Some(0);
    BrokenPieces(s);
  }

  // ---------------------------------------------------------------- what the result depends on

  ghost predicate Agree(ps: seq<Piece>, a: Environment, b: Environment) {
    forall i :: 0 <= i < |ps| && ps[i].Place? ==> a(ps[i].name) == b(ps[i].name)
  }

  lemma AgreeFirst(ps: seq<Piece>, a: Environment, b: Environment)
    requires ps != [] && Agree(ps, a, b)
    ensures Value(ps[0], a) == Value(ps[0], b) && Agree(ps[1..], a, b)
  {
    forall i | 0 <= i < |ps[1..]| && ps[1..][i].Place? ensures a(ps[1..][i].name) == b(ps[1..][i].name) {
      assert ps[1..][i] == ps[i + 1];
    }
  }

  lemma {:induction false} SameMeaning(ps: seq<Piece>, a: Environment, b: Environment)
    requires Agree(ps, a, b)
    ensures Meaning(ps, a) == Meaning(ps, b)
    decreases |ps|
  {
    if ps != [] {
      AgreeFirst(ps, a, b);
      SameMeaning(ps[1..], a, b);
    }
  }

  lemma {:induction false} SameOverflow(ps: seq<Piece>, a: Environment, b: Environment, used: nat)
    requires Agree(ps, a, b)
    ensures Overflows(ps, a, used) <==> Overflows(ps, b, used)
    decreases |ps|
  {
    if ps != [] {
      AgreeFirst(ps, a, b);
      if Value(ps[0], a).Ok? {
        SameOverflow(ps[1..], a, b, used + |Value(ps[0], a).value|);
      }
    }
  }

  /** Only the variables a string names can change what is returned, the text or the error. */
  lemma OnlyNamesMatter(input: Text, a: Environment, b: Environment,
                        r: Result<Text, ExpandError>, t: Result<Text, ExpandError>)
    requires Agree(Pieces(input), a, b) && Expands(input, a, r) && Expands(input, b, t)
    ensures r == t
  {
    SameMeaning(Pieces(input), a, b);
    SameOverflow(Pieces(input), a, b, 0);
    ExpandsOnce(input, b, r, t);
  }

  /** The environment and the input determine the result. */
  lemma ExpandsOnce(input: Text, env: Environment, r: Result<Text, ExpandError>, t: Result<Text, ExpandError>)
    requires Expands(input, env, r) && Expands(input, env, t)
    ensures r == t
  {
  }

  /** What a piece leaves in the text: itself, the variable's value as it is, or the fallback as it is
      when the variable is unset or empty. */
  function Shown(p: Piece, env: Environment): Text {
    match p
    case Literal(b) => b
    case Broken => []
    case Place(n, d) =>
      if env(n).Some? && (env(n).value != [] || d.None?) then env(n).value
      else if d.Some? then d.value
      else []
  }

  function Rendered(ps: seq<Piece>, env: Environment): Text {
    if ps == [] then [] else Shown(ps[0], env) + Rendered(ps[1..], env)
  }

  /** The first variable that is unset and has no fallback. */
  function FirstMissing(ps: seq<Piece>, env: Environment): Option<Text> {
    if ps == [] then None
    else if ps[0].Place? && ps[0].fallback.None? && env(ps[0].name).None? then Some(ps[0].name)
    else FirstMissing(ps[1..], env)
  }

  lemma {:induction false} MeaningIsRendered(ps: seq<Piece>, env: Environment)
    requires Broken !in ps
    ensures Meaning(ps, env) ==
            if FirstMissing(ps, env).Some? then Err(MissingEnvironment(FirstMissing(ps, env).value))
                else Ok(Rendered(ps, env))
    decreases |ps|
  {
    if ps != [] {
      MeaningIsRendered(ps[1..], env);
      assert ps[0] in ps;
      assert Value(ps[0], env).Ok? ==> Value(ps[0], env).value == Shown(ps[0], env);
    }
  }

  lemma {:induction false} RenderedConcat(a: seq<Piece>, b: seq<Piece>, env: Environment)
    ensures Rendered(a + b, env) == Rendered(a, env) + Rendered(b, env)
    decreases |a|
  {
    if a == [] {
      assert a + b == b;
    } else {
      assert (a + b)[1..] == a[1..] + b;
      RenderedConcat(a[1..], b, env);
    }
  }

  /** For every string of well-formed pieces: it expands exactly when no variable without a fallback is
      unset, and the first such one is named otherwise; and the stretch of the result that stands for
      a placeholder is the variable's value, or the fallback when that is unset or empty, copied
      whatever it holds and never looked at again. */
  lemma ReplacementIsVerbatim(ps: seq<Piece>, k: nat, env: Environment)
    requires WellFormed(ps) && k < |ps|
    ensures var r := Meaning(Pieces(SpelledAll(ps)), env);
            if FirstMissing(ps, env).Some? then r == Err(MissingEnvironment(FirstMissing(ps, env).value))
            else r == Ok(Rendered(ps[..k], env) + Shown(ps[k], env) + Rendered(ps[k + 1..], env))
    ensures ps[k].Place? ==>
              var value, fallback := env(ps[k].name), ps[k].fallback;
              && (value.Some? && value.value != [] ==> Shown(ps[k], env) == value.value)
              && (value == Some([]) ==> Shown(ps[k], env) == if fallback.Some? then fallback.value else [])
              && (value.None? && fallback.Some? ==> Shown(ps[k], env) == fallback.value)
  {
    CutSpelled(ps);
    assert Broken !in ps by {
      forall i | 0 <= i < |ps| ensures ps[i] != Broken {
        assert PieceOk(ps[i]);
      }
    }
    MeaningIsRendered(ps, env);
    RenderedAt(ps, k, env);
  }

  lemma RenderedAt(ps: seq<Piece>, k: nat, env: Environment)
    requires k < |ps|
    ensures Rendered(ps, env) == Rendered(ps[..k], env) + Shown(ps[k], env) + Rendered(ps[k + 1..], env)
  {
    assert ps == ps[..k] + ps[k..] && ps[k..][1..] == ps[k + 1..];
    RenderedConcat(ps[..k], ps[k..], env);
  }
}
