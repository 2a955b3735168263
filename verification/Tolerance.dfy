/** What the tolerance tests of a remote accept, in terms of the lengths alone. */
module Tolerance {
  import opened Signals
  import opened Remotes

  /** How far `d` is from `ex`. */
  function Off(d: int, ex: int): nat {
    if d < ex then ex - d else d - ex
  }

  /** `d` is off by at most `eps` percent of `ex`, or by at most `aeps`, or by no more than the
      driver can resolve. */
  predicate Near(r: Remote, d: int, ex: nat) {
    100 * Off(d, ex) <= r.eps * ex || Off(d, ex) <= r.aeps || Off(d, ex) <= r.resolution
  }

  /** The greatest error that is accepted in place of `ex`. */
  function Slack(r: Remote, ex: nat): nat {
    var percent := r.eps * ex / 100;
    var least := if r.aeps > r.resolution then r.aeps else r.resolution;
    if percent > least then percent else least
  }

  lemma Hundredth(d: nat, m: nat)
    ensures d <= m / 100 <==> 100 * d <= m
  {
  }

  /** The test for a length is a tolerance of `eps` percent of the length expected, or of `aeps`. */
  lemma ExpectIsNear(r: Remote, d: int, ex: nat)
    ensures r.Expect(d, ex) <==> Near(r, d, ex)
  {
    Hundredth(Off(d, ex), r.eps * ex);
    assert ex * r.eps == r.eps * ex;
  }

  lemma NearIsSlack(r: Remote, d: int, ex: nat)
    ensures Near(r, d, ex) <==> Off(d, ex) <= Slack(r, ex)
  {
    Hundredth(Off(d, ex), r.eps * ex);
  }

  /** The tests for gaps are the same to one side. */
  lemma ExpectAtLeastIsNear(r: Remote, d: nat, ex: nat)
    ensures r.ExpectAtLeast(d, ex) <==> d >= ex || Near(r, d, ex)
  {
    var m := r.eps * ex;
    assert ex * r.eps == m;
    Hundredth(Off(d, ex), m);
    if d < ex { assert d + m / 100 >= ex <==> Off(d, ex) <= m / 100; }
  }

  lemma ExpectAtMostIsNear(r: Remote, d: nat, ex: nat)
    ensures r.ExpectAtMost(d, ex) <==> d <= ex || Near(r, d, ex)
  {
    var m := r.eps * ex;
    assert ex * r.eps == m;
    Hundredth(Off(d, ex), m);
    if d > ex { assert d <= ex + m / 100 <==> Off(d, ex) <= m / 100; }
  }

  /** `x` and `y` are further apart than both tolerances together: nothing passes for both. */
  predicate Clear(r: Remote, x: nat, y: nat) {
    Off(x, y) > Slack(r, x) + Slack(r, y)
  }

  lemma ClearIsApart(r: Remote, d: int, x: nat, y: nat)
    requires Clear(r, x, y) && Near(r, d, x)
    ensures !Near(r, d, y)
  {
    NearIsSlack(r, d, x);
    NearIsSlack(r, d, y);
  }

  /** Of lengths that are closer, some length passes for both. */
  lemma NotClearIsShared(r: Remote, x: nat, y: nat) returns (d: nat)
    requires !Clear(r, x, y)
    ensures Near(r, d, x) && Near(r, d, y) && (d >= x || d >= y)
  {
    var step := if Off(x, y) < Slack(r, x) then Off(x, y) else Slack(r, x);
    d := if x < y then x + step else x - step;
    NearIsSlack(r, d, x);
    NearIsSlack(r, d, y);
  }

  // ----- signals that are off -----

  /** The signals `a` are what is heard of `c`: of each run of one level the last part is off by no
      more than the tolerance for that part. */
  ghost predicate Blurs(r: Remote, c: seq<Sig>, a: seq<Sig>) {
    |a| == |c| && forall i :: 0 <= i < |c| ==> BlursAt(r, c, a, i)
  }

  predicate BlursAt(r: Remote, c: seq<Sig>, a: seq<Sig>, i: nat)
    requires i < |c| && |a| == |c|
  {
    && SameLevel(a[i], c[i]) && a[i].len > 0
    && (if i + 1 < |c| && SameLevel(c[i], c[i + 1]) then a[i] == c[i] else Near(r, a[i].len, c[i].len))
  }

  lemma BlursRest(r: Remote, b: seq<Sig>, c: seq<Sig>, a: seq<Sig>)
    requires Blurs(r, b + c, a)
    ensures Blurs(r, c, a[|b|..]) && a == a[..|b|] + a[|b|..]
    ensures c != [] <==> a[|b|..] != []
    ensures c != [] ==> SameLevel(a[|b|], c[0])
  {
    var e := b + c;
    forall i | 0 <= i < |c|
      ensures BlursAt(r, c, a[|b|..], i)
    {
      assert BlursAt(r, e, a, |b| + i);
      assert e[|b| + i] == c[i];
    }
    if c != [] { assert BlursAt(r, c, a[|b|..], 0); }
  }

  /** The first signal, and what it may be. */
  lemma BlursFirst(r: Remote, x: Sig, c: seq<Sig>, a: seq<Sig>)
    requires Blurs(r, [x] + c, a)
    ensures a != [] && a == [a[0]] + a[1..] && Blurs(r, c, a[1..]) && SameLevel(a[0], x) && a[0].len > 0
    ensures |a[1..]| == |c| && (c != [] ==> SameLevel(a[1], c[0]))
    ensures if c != [] && SameLevel(x, c[0]) then a[0] == x else Near(r, a[0].len, x.len)
    ensures Near(r, a[0].len, x.len)
  {
    var e := [x] + c;
    assert BlursAt(r, e, a, 0);
    assert e[0] == x;
    if c != [] { assert e[1] == c[0]; }
    BlursRest(r, [x], c, a);
  }
}
