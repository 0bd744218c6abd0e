/** Machine names derived from run identity: crates/flanforge-manager/src/resolve.rs. */
module VmNames {
  import opened Base
  import opened Allocations

  const MAX_VM_NAME := 80

  /** The decimal text of a number, without leading zeros. */
  function Decimal(n: nat): (s: string)
    ensures |s| > 0
    ensures forall i :: 0 <= i < |s| ==> '0' <= s[i] <= '9'
  {
    if n < 10 then [Digit(n)] else Decimal(n / 10) + [Digit(n % 10)]
  }

  function Digit(n: nat): char
    requires n < 10
  {
    '0' + n as char
  }

  lemma {:induction false} DecimalIsInjective(m: nat, n: nat)
    requires Decimal(m) == Decimal(n)
    ensures m == n
  {
    var a, b := Decimal(m), Decimal(n);
    assert a[|a| - 1] == Digit(m % 10) && b[|b| - 1] == Digit(n % 10);
    if m >= 10 && n >= 10 {
      assert Decimal(m / 10) == a[..|a| - 1] && Decimal(n / 10) == b[..|b| - 1];
      DecimalIsInjective(m / 10, n / 10);
    }
  }

  predicate IsNameChar(c: char) {
    IsAlphanumeric(c) || c == '-' || c == '_' || c == '.'
  }

  predicate IsAlphanumeric(c: char) {
    'a' <= c <= 'z' || 'A' <= c <= 'Z' || '0' <= c <= '9'
  }

  predicate IsProfileChar(c: char) {
    'a' <= c <= 'z' || '0' <= c <= '9' || c == '_' || c == '-'
  }

  /** The identifier rule: a length range, an alphanumeric start, one alphabet. */
  predicate IsIdentifier(s: string, max: nat, valid: char -> bool) {
    1 <= |s| <= max && IsAlphanumeric(s[0]) && forall i :: 0 <= i < |s| ==> valid(s[i])
  }

  /** What request validation demands before anything else is decided. */
  predicate ValidRequest(r: Request) {
    IsIdentifier(r.profile, 32, IsProfileChar) && 1 <= r.runId < 0x1_0000_0000_0000_0000 &&
        1 <= r.runAttempt < 0x1_0000_0000
  }

  function VmText(prefix: string, r: Request): string {
    prefix + r.profile + "-" + Decimal(r.runId) + "-" + Decimal(r.runAttempt)
  }

  /** The machine name, refused when the text is not a valid identifier. */
  function VmName(prefix: string, r: Request): Option<string> {
    if IsIdentifier(VmText(prefix, r), MAX_VM_NAME, IsNameChar) then Some(VmText(prefix, r)) else None
  }

  /** The number a text of digits spells. */
  function Number(s: string): nat
    requires forall i :: 0 <= i < |s| ==> '0' <= s[i] <= '9'
  {
    if s == [] then 0 else 10 * Number(s[..|s| - 1]) + (s[|s| - 1] - '0') as nat
  }

  lemma {:induction false} DecimalReadsBack(n: nat)
    ensures Number(Decimal(n)) == n
  {
    var s := Decimal(n);
    if n < 10 {
      assert s[..0] == [];
    } else {
      DecimalReadsBack(n / 10);
      assert s[..|s| - 1] == Decimal(n / 10);
    }
  }

  /** How a name reads: prefix and profile, then the run, then the attempt. */
  lemma VmTextReads(prefix: string, r: Request) returns (run: string, attempt: string)
    ensures VmText(prefix, r) == prefix + r.profile + "-" + run + "-" + attempt
    ensures (forall i :: 0 <= i < |run| ==> '0' <= run[i] <= '9') && Number(run) == r.runId
    ensures (forall i :: 0 <= i < |attempt| ==> '0' <= attempt[i] <= '9') && Number(attempt) == r.runAttempt
  {
    run, attempt := Decimal(r.runId), Decimal(r.runAttempt);
    DecimalReadsBack(r.runId);
    DecimalReadsBack(r.runAttempt);
  }

  /** For a valid request the name is refused exactly when the prefix holds or starts with a character no
      name may, or when it does not fit: 80 characters, of which profile and numbers take their part. */
  lemma NamesAreRefusedExactly(prefix: string, r: Request)
    requires ValidRequest(r)
    ensures VmName(prefix, r).None? <==>
            || |prefix| + |r.profile| + |Decimal(r.runId)| + |Decimal(r.runAttempt)| + 2 > 80
            || (prefix != "" && (prefix[0] == '-' || prefix[0] == '_' || prefix[0] == '.'))
            || exists c :: c in prefix && !('a' <= c <= 'z' || 'A' <= c <= 'Z' || '0' <= c <= '9' ||
                 c == '-' || c == '_' || c == '.')
    ensures VmName(prefix, r).Some? ==> VmName(prefix, r).value == VmText(prefix, r)
  {
    var s := VmText(prefix, r);
    var run, attempt := Decimal(r.runId), Decimal(r.runAttempt);
    var tail := r.profile + "-" + run + "-" + attempt;
    assert s == prefix + tail;
    TailIsNamed(r);
    if IsIdentifier(s, MAX_VM_NAME, IsNameChar) {
      forall c | c in prefix ensures IsNameChar(c) {
        var i :| 0 <= i < |prefix| && prefix[i] == c;
        assert s[i] == c;
      }
      assert prefix != "" ==> s[0] == prefix[0];
    } else {
      forall i | |prefix| <= i < |s| ensures IsNameChar(s[i]) {
        assert s[i] == tail[i - |prefix|];
      }
      forall i | 0 <= i < |prefix| ensures s[i] in prefix {
      }
    }
  }

  /** What stands behind the prefix is always fit for a name. */
  lemma TailIsNamed(r: Request)
    requires ValidRequest(r)
    ensures var tail := r.profile + "-" + Decimal(r.runId) + "-" + Decimal(r.runAttempt);
            tail != "" && IsAlphanumeric(tail[0]) && forall i :: 0 <= i < |tail| ==> IsNameChar(tail[i])
  {
  }

  /** The last dash splits a text in only one way. */
  lemma LastDash(a: string, x: string, b: string, y: string)
    requires '-' !in x && '-' !in y
    requires a + "-" + x == b + "-" + y
    ensures a == b && x == y
  {
    var s := a + "-" + x;
    assert s[|a|] == '-' && s[|b|] == '-';
    assert |a| == |b|;
    assert a == s[..|a|] && b == s[..|b|] && x == s[|a| + 1..] && y == s[|b| + 1..];
  }

  /** Two machine names coincide exactly when the run, the attempt and the text in front of
      them do, whatever dashes and digits profiles and prefixes contain. */
  lemma SharedVmName(p: string, r: Request, q: string, t: Request)
    ensures VmText(p, r) == VmText(q, t) <==>
            p + r.profile == q + t.profile && r.runId == t.runId && r.runAttempt == t.runAttempt
  {
    if VmText(p, r) == VmText(q, t) {
      var a, b := p + r.profile + "-" + Decimal(r.runId), q + t.profile + "-" + Decimal(t.runId);
      LastDash(a, Decimal(r.runAttempt), b, Decimal(t.runAttempt));
      LastDash(p + r.profile, Decimal(r.runId), q + t.profile, Decimal(t.runId));
      DecimalIsInjective(r.runAttempt, t.runAttempt);
      DecimalIsInjective(r.runId, t.runId);
    }
  }

  /** Under one prefix the name determines profile, run and attempt. */
  lemma VmNameIsInjective(prefix: string, r: Request, t: Request)
    requires VmText(prefix, r) == VmText(prefix, t)
    ensures r.profile == t.profile && r.runId == t.runId && r.runAttempt == t.runAttempt
  {
    SharedVmName(prefix, r, prefix, t);
    assert r.profile == (prefix + r.profile)[|prefix|..] == (prefix + t.profile)[|prefix|..] == t.profile;
  }

  /** Changing the prefix while work is live can make two runs of different profiles collide. */
  lemma PrefixChangeCanCollide(run: nat, attempt: nat)
    ensures var r := Request("b-c", "o/one", run, attempt);
            var t := Request("c", "o/two", run, attempt);
            !SameAttempt(r, t) && VmText("a-", r) == VmText("a-b-", t)
  {
    assert "a-" + "b-c" == "a-b-" + "c";
    SharedVmName("a-", Request("b-c", "o/one", run, attempt), "a-b-", Request("c", "o/two", run, attempt));
  }
}
