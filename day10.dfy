/** Day 10, part 1 (src/days/day_10/mod.rs): asteroids on a grid, and how
    many of them a monitoring station can see. An asteroid hides every
    asteroid behind it on the same ray, so from a position the visible
    asteroids are one per distinct reduced direction. */
module Day10 {
  import opened Wrappers
  import opened Util

  datatype Position = Position(x: int, y: int)

  const Zero := Position(0, 0)

  /** `Position - Position`, coordinate-wise. */
  function Sub(a: Position, b: Position): (d: Position)
    ensures d == Zero <==> a == b
  {
    Position(a.x - b.x, a.y - b.y)
  }

  function Abs(v: int): nat {
    if v < 0 then -v else v
  }

  function Quotient(n: nat, k: nat): nat
    requires k > 0
  {
    n / k
  }

  /** `isize` division, which rounds toward zero: the quotient's magnitude
      is the quotient of the magnitudes and its sign is the product of the
      signs. */
  function TruncDiv(a: int, d: int): (q: int)
    requires d != 0
    ensures Abs(q) == Abs(a) / Abs(d)
    ensures q > 0 ==> (a > 0 <==> d > 0)
    ensures q < 0 ==> (a > 0 <==> d < 0)
  {
    var m: int := Quotient(Abs(a), Abs(d));
    if m == 0 then 0
    else if (a < 0) == (d < 0) then m
    else -m
  }

  /** `Position / isize`, coordinate-wise; a divisor of both coordinates
      divides exactly. */
  function Div(p: Position, divisor: int): (r: Position)
    requires divisor != 0
    ensures divisor > 0 && Abs(p.x) % divisor == 0 && Abs(p.y) % divisor == 0 ==> Scale(divisor, r) == p
  {
    var r := Position(TruncDiv(p.x, divisor), TruncDiv(p.y, divisor));
    if divisor > 0 && Abs(p.x) % divisor == 0 && Abs(p.y) % divisor == 0 then
      TruncDivExact(p.x, divisor);
      TruncDivExact(p.y, divisor);
      r
    else
      r
  }

  /** `num_integer::gcd` on magnitudes, by Euclid's algorithm. The gcd is
      zero only for two zeros, and otherwise divides both. */
  function Gcd(a: nat, b: nat): (g: nat)
    ensures g == 0 <==> a == 0 && b == 0
    ensures g > 0 ==> a % g == 0 && b % g == 0
    decreases b
  {
    if b == 0 then a
    else
      var g := Gcd(b, a % b);
      EuclidStep(a, b, g);
      g
  }

  /** A divisor of `b` and of `a % b` divides `a`. */
  lemma EuclidStep(a: nat, b: nat, g: nat)
    requires b > 0 && g > 0 && b % g == 0 && (a % b) % g == 0
    ensures a % g == 0
  {
    var q, r := a / b, a % b;
    var kb, kr := b / g, r / g;
    assert b == g * kb && r == g * kr;
    assert a == g * (kb * q + kr) by {
      assert a == b * q + r;
      assert b * q == g * (kb * q);
    }
    DivisionUnique(a, g, kb * q + kr, 0);
  }

  /** Every common divisor divides the gcd. */
  lemma {:induction false} GcdGreatest(a: nat, b: nat, d: nat)
    requires d > 0 && a % d == 0 && b % d == 0
    ensures Gcd(a, b) % d == 0
    decreases b
  {
    if b > 0 {
      var q, r := a / b, a % b;
      var ka, kb := a / d, b / d;
      assert a == d * ka && b == d * kb;
      assert b * q == d * (kb * q);
      assert r == d * (ka - kb * q);
      DivisionUnique(r, d, ka - kb * q, 0);
      GcdGreatest(b, r, d);
    }
  }

  /** A common factor comes out of the gcd. */
  lemma {:induction false} GcdScale(a: nat, b: nat, k: nat)
    requires k > 0
    ensures Gcd(k * a, k * b) == k * Gcd(a, b)
    decreases b
  {
    if b > 0 {
      var q, r := a / b, a % b;
      assert k * a == (k * b) * q + k * r by {
        assert a == b * q + r;
      }
      MulStrict(k, r, b);
      DivisionUnique(k * a, k * b, q, k * r);
      GcdScale(b, r, k);
    }
  }

  lemma MulStrict(k: nat, r: nat, b: nat)
    requires k > 0 && r < b
    ensures k * r < k * b
  {
  }

  /** The reduced direction of a non-zero difference: `diff / gcd(diff.x, diff.y)`.
      It is non-zero and, scaled back by the gcd, gives the difference. */
  function Dir(v: Position): (d: Position)
    requires v != Zero
    ensures d != Zero && Scale(Gcd(Abs(v.x), Abs(v.y)), d) == v
  {
    Div(v, Gcd(Abs(v.x), Abs(v.y)))
  }

  function GcdOf(v: Position): nat {
    Gcd(Abs(v.x), Abs(v.y))
  }

  function Scale(k: nat, v: Position): Position {
    Position(k * v.x, k * v.y)
  }

  lemma TruncDivExact(a: int, d: nat)
    requires d > 0 && Abs(a) % d == 0
    ensures d * TruncDiv(a, d) == a
  {
  }

  lemma TruncDivScale(a: int, d: nat, k: nat)
    requires d > 0 && k > 0
    ensures TruncDiv(k * a, k * d) == TruncDiv(a, d)
  {
    var q, r := Abs(a) / d, Abs(a) % d;
    assert Abs(k * a) == (k * d) * q + k * r by {
      assert Abs(a) == d * q + r;
      if a < 0 {
        assert Abs(k * a) == k * Abs(a);
      }
    }
    MulStrict(k, r, d);
    DivisionUnique(Abs(k * a), k * d, q, k * r);
  }

  /** A positive multiple of a difference has the same direction. */
  lemma DirOfMultiple(v: Position, k: nat)
    requires v != Zero && k > 0
    ensures Scale(k, v) != Zero && Dir(Scale(k, v)) == Dir(v)
  {
    var w := Scale(k, v);
    assert Abs(w.x) == k * Abs(v.x) && Abs(w.y) == k * Abs(v.y);
    GcdScale(Abs(v.x), Abs(v.y), k);
    TruncDivScale(v.x, GcdOf(v), k);
    TruncDivScale(v.y, GcdOf(v), k);
  }

  /** `u` and `v` lie on the same ray from the origin. */
  ghost predicate SameRay(u: Position, v: Position) {
    exists s: nat, t: nat :: s > 0 && t > 0 && Scale(s, u) == Scale(t, v)
  }

  /** Two differences have the same reduced direction exactly when they lie
      on the same ray, so one asteroid per direction is the set of
      asteroids not hidden behind another. */
  lemma DirIffSameRay(u: Position, v: Position)
    requires u != Zero && v != Zero
    ensures Dir(u) == Dir(v) <==> SameRay(u, v)
  {
    if Dir(u) == Dir(v) {
      SameDirSameRay(u, v);
    }
    if SameRay(u, v) {
      var s: nat, t: nat :| s > 0 && t > 0 && Scale(s, u) == Scale(t, v);
      DirOfMultiple(u, s);
      DirOfMultiple(v, t);
    }
  }

  lemma SameDirSameRay(u: Position, v: Position)
    requires u != Zero && v != Zero && Dir(u) == Dir(v)
    ensures SameRay(u, v)
  {
    var d, gu, gv := Dir(u), GcdOf(u), GcdOf(v);
    assert u == Scale(gu, d) && v == Scale(gv, d);
    MulSwap(gu, gv, d.x);
    MulSwap(gu, gv, d.y);
    assert Scale(gv, u) == Scale(gu, v);
  }

  lemma MulSwap(a: int, b: int, c: int)
    ensures b * (a * c) == a * (b * c)
  {
  }

  /** Directions keep their signs and lose their common factor. */
  lemma DirExamples()
    ensures Dir(Position(4, -6)) == Position(2, -3)
    ensures Dir(Position(0, -5)) == Position(0, -1)
    ensures Dir(Position(-3, 0)) == Position(-1, 0)
  {
    assert Gcd(4, 6) == 2 by {
      assert Gcd(6, 4) == Gcd(4, 2) == Gcd(2, 0);
    }
    assert Gcd(0, 5) == 5 by {
      assert Gcd(5, 0) == 5;
    }
  }

  /** The direction from `from` to another position. */
  function DirFrom(from: Position, target: Position): Position
    requires target != from
  {
    Dir(Sub(target, from))
  }

  /** The distinct directions from `from` to the other positions of `s`. */
  function DirectionsOf(from: Position, s: set<Position>): set<Position> {
    set t | t in s && t != from :: DirFrom(from, t)
  }

  /** No two positions of `s` share a direction from `from`. */
  ghost predicate OnePerDirection(from: Position, s: set<Position>) {
    forall a, b :: a in s && b in s && a != from && b != from && DirFrom(from, a) == DirFrom(from, b) ==> a == b
  }

  /** A set with one position per direction is as large as its set of
      directions. */
  lemma {:induction false} DirectionsCount(from: Position, s: set<Position>)
    requires from !in s && OnePerDirection(from, s)
    ensures |DirectionsOf(from, s)| == |s|
    decreases s
  {
    if s != {} {
      var t :| t in s;
      var rest := s - {t};
      DirectionsCount(from, rest);
      assert DirectionsOf(from, s) == DirectionsOf(from, rest) + {DirFrom(from, t)};
      assert DirFrom(from, t) !in DirectionsOf(from, rest);
    }
  }

  /** How many asteroids a station at `from` detects. */
  function Visible(from: Position, asteroids: set<Position>): nat {
    |DirectionsOf(from, asteroids)|
  }

  /** A station sees nothing exactly when it is the only asteroid. */
  lemma VisibleZeroIffAlone(from: Position, asteroids: set<Position>)
    ensures Visible(from, asteroids) == 0 <==> asteroids <= {from}
  {
    if !(asteroids <= {from}) {
      var t :| t in asteroids && t != from;
      assert DirFrom(from, t) in DirectionsOf(from, asteroids);
    }
  }

  /** The number of bytes UTF-8 spends on a character. */
  function Utf8Len(c: char): (n: nat)
    ensures 1 <= n <= 4
    ensures n == 1 <==> (c as int) < 0x80
  {
    if (c as int) < 0x80 then 1
    else if (c as int) < 0x800 then 2
    else if (c as int) < 0x1_0000 then 3
    else 4
  }

  /** The byte offset of character `i` of `line`, as `char_indices` reports it. */
  function ByteOffset(line: string, i: nat): (off: nat)
    requires i <= |line|
    ensures i <= off <= 4 * i
  {
    if i == 0 then 0 else ByteOffset(line, i - 1) + Utf8Len(line[i - 1])
  }

  /** On a line of ASCII characters the byte offset is the character index. */
  lemma {:induction false} AsciiByteOffset(line: string, i: nat)
    requires i <= |line| && forall k :: 0 <= k < |line| ==> (line[k] as int) < 0x80
    ensures ByteOffset(line, i) == i
  {
    if i > 0 {
      AsciiByteOffset(line, i - 1);
    }
  }

  /** Byte offsets grow strictly, so distinct characters get distinct `x`. */
  lemma {:induction false} ByteOffsetStrict(line: string, i: nat, j: nat)
    requires i < j <= |line|
    ensures ByteOffset(line, i) < ByteOffset(line, j)
    decreases j
  {
    if i < j - 1 {
      ByteOffsetStrict(line, i, j - 1);
    }
  }

  /** One of the first `count` characters of `line` is a `#` at byte offset `x`. */
  predicate HashAt(line: string, count: nat, x: int)
    requires count <= |line|
  {
    exists i :: 0 <= i < count && line[i] == '#' && ByteOffset(line, i) == x
  }

  /** The asteroid map: a `#` at byte offset `x` of line `y`. */
  predicate IsAsteroid(lines: seq<string>, p: Position) {
    0 <= p.y < |lines| && HashAt(lines[p.y], |lines[p.y]|, p.x)
  }

  /** A multi-byte character before a `#` moves it right by its byte count. */
  lemma ByteOffsetExample()
    ensures IsAsteroid(["\U{e9}#"], Position(2, 0))
    ensures !IsAsteroid(["\U{e9}#"], Position(1, 0))
  {
    var line := "\U{e9}#";
    assert ByteOffset(line, 1) == 2;
    assert line[1] == '#';
  }

  /** `parse_asteroid_map` on the lines of the input. */
  method ParseAsteroidMap(lines: seq<string>) returns (asteroids: set<Position>)
    ensures forall p :: p in asteroids <==> IsAsteroid(lines, p)
  {
    asteroids := {};
    for y := 0 to |lines|
      invariant forall p :: p in asteroids <==> IsAsteroid(lines, p) && p.y < y
    {
      var offset := 0;
      for i := 0 to |lines[y]|
        invariant offset == ByteOffset(lines[y], i)
        invariant forall p :: p in asteroids <==> (IsAsteroid(lines, p) && p.y < y) || (p.y == y && HashAt(lines[y], i, p.x))
      {
        if lines[y][i] == '#' {
          asteroids := asteroids + {Position(offset, y)};
        }
        offset := offset + Utf8Len(lines[y][i]);
      }
    }
  }

  /** `find_reachable`: over the asteroids in any order, keep the first one
      met in each direction. */
  method FindReachable(from: Position, asteroids: set<Position>) returns (reachable: set<Position>)
    ensures reachable <= asteroids && from !in reachable
    ensures OnePerDirection(from, reachable)
    ensures forall t :: t in asteroids && t != from ==> DirFrom(from, t) in DirectionsOf(from, reachable)
    ensures |reachable| == Visible(from, asteroids)
  {
    var minVecs: set<Position> := {};
    reachable := {};
    var remaining := asteroids;
    while remaining != {}
      invariant remaining <= asteroids && reachable <= asteroids - remaining && from !in reachable
      invariant minVecs == DirectionsOf(from, reachable)
      invariant OnePerDirection(from, reachable)
      invariant forall t :: t in asteroids - remaining && t != from ==> DirFrom(from, t) in minVecs
      decreases remaining
    {
      var target :| target in remaining;
      remaining := remaining - {target};
      if target == from {
        continue;
      }
      var minVec := Dir(Sub(target, from));
      if minVec !in minVecs {
        minVecs := minVecs + {minVec};
        reachable := reachable + {target};
      }
    }
    assert DirectionsOf(from, reachable) == DirectionsOf(from, asteroids);
    DirectionsCount(from, reachable);
  }

  /** `best_location`: over the asteroids in any order, the one that sees
      strictly more than the best so far; none when nothing sees anything. */
  method BestLocation(asteroids: set<Position>) returns (r: Option<(nat, Position)>)
    ensures r.Some? ==> r.value.1 in asteroids && r.value.0 == Visible(r.value.1, asteroids) && r.value.0 > 0
    ensures r.Some? ==> forall a :: a in asteroids ==> Visible(a, asteroids) <= r.value.0
    ensures r.None? <==> forall a :: a in asteroids ==> Visible(a, asteroids) == 0
  {
    var maxReachable := 0;
    var bestLocation: Option<Position> := None;
    var remaining := asteroids;
    while remaining != {}
      invariant remaining <= asteroids
      invariant bestLocation.None? ==> maxReachable == 0
      invariant bestLocation.Some? ==> bestLocation.value in asteroids && maxReachable == Visible(bestLocation.value, asteroids) > 0
      invariant forall a :: a in asteroids - remaining ==> Visible(a, asteroids) <= maxReachable
      decreases remaining
    {
      var asteroid :| asteroid in remaining;
      remaining := remaining - {asteroid};
      var reachable := FindReachable(asteroid, asteroids);
      if |reachable| > maxReachable {
        maxReachable := |reachable|;
        bestLocation := Some(asteroid);
      }
    }
    if bestLocation.Some? {
      return Some((maxReachable, bestLocation.value));
    }
    return None;
  }
}
