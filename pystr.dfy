/** The three Python string operations the graph builder uses: the substring test `p in s`
    (classification), the ordering `a < b` (through `sorted` on an edge's two ids), and `str(n)`
    for a non-negative counter (the ids themselves). */
module PyStr {

  /** `p` occurs in `s` starting at position `i`. */
  ghost predicate OccursAt(s: string, p: string, i: nat)
  {
    i + |p| <= |s| && s[i..i + |p|] == p
  }

  /** Python's `p in s` for two strings: true exactly when `p` occurs somewhere in `s`. */
  function Contains(s: string, p: string): (b: bool)
    ensures b <==> exists i: nat :: OccursAt(s, p, i)
    decreases |s|
  {
    if |s| < |p| then
      assert forall i: nat :: !OccursAt(s, p, i);
      false
    else if s[..|p|] == p then
      assert OccursAt(s, p, 0);
      true
    else
      var b := Contains(s[1..], p);
      ShiftOccurs(s, p);
      b
  }

  /** An occurrence in the tail is an occurrence one place further on in the whole string, so
      `p` occurs in `s` when it starts `s` or occurs in the tail. */
  lemma {:induction false} ShiftOccurs(s: string, p: string)
    requires |s| > 0
    ensures (exists i: nat :: OccursAt(s, p, i)) <==> OccursAt(s, p, 0) || exists i: nat :: OccursAt(s[1..], p, i)
  {
    forall i: nat
      ensures OccursAt(s[1..], p, i) <==> OccursAt(s, p, i + 1)
    {
      if i + |p| <= |s| - 1 {
        assert s[1..][i..i + |p|] == s[i + 1..i + 1 + |p|];
      }
    }
    if exists i: nat :: OccursAt(s, p, i) {
      var i: nat :| OccursAt(s, p, i);
      if i > 0 {
        assert OccursAt(s[1..], p, i - 1);
      }
    }
  }

  /** Python's `a < b` on strings: lexicographic by code point, a proper prefix first. */
  predicate Lt(a: string, b: string)
  {
    if |b| == 0 then false
    else if |a| == 0 then true
    else if a[0] != b[0] then a[0] < b[0]
    else Lt(a[1..], b[1..])
  }

  /** Python's string order is trichotomous: exactly one of `a < b`, `a == b`, `b < a` holds. */
  lemma {:induction false} LtTrichotomy(a: string, b: string)
    ensures Lt(a, b) || a == b || Lt(b, a)
    ensures !(Lt(a, b) && Lt(b, a))
    ensures !Lt(a, a)
  {
    if |a| > 0 && |b| > 0 && a[0] == b[0] {
      LtTrichotomy(a[1..], b[1..]);
      if a[1..] == b[1..] {
        assert a == [a[0]] + a[1..] && b == [b[0]] + b[1..];
      }
      LtTrichotomy(a[1..], a[1..]);
    } else if |a| > 0 {
      LtTrichotomy(a[1..], a[1..]);
    }
  }

  /** Python's string order is transitive, so with LtTrichotomy it is a strict total order. */
  lemma {:induction false} LtTrans(a: string, b: string, c: string)
    requires Lt(a, b) && Lt(b, c)
    ensures Lt(a, c)
  {
    if |a| > 0 && a[0] == b[0] && b[0] == c[0] {
      LtTrans(a[1..], b[1..], c[1..]);
    }
  }

  /** The decimal digit for `d`. */
  function Digit(d: nat): (c: char)
    requires d < 10
    ensures '0' <= c <= '9' && c as int - '0' as int == d
  {
    ('0' as int + d) as char
  }

  /** Every character is a decimal digit. */
  predicate AllDigits(s: string)
  {
    forall k :: 0 <= k < |s| ==> '0' <= s[k] <= '9'
  }

  /** Python's `str(n)` for a non-negative integer: its decimal digits, most significant first. */
  function Str(n: nat): (s: string)
    ensures |s| > 0 && AllDigits(s)
  {
    if n < 10 then [Digit(n)] else Str(n / 10) + [Digit(n % 10)]
  }

  /** `str(n)` has no leading zero unless `n` is 0: it is Python's canonical decimal form. */
  lemma {:induction false} StrCanonical(n: nat)
    ensures n > 0 ==> Str(n)[0] != '0'
  {
    if n >= 10 {
      StrCanonical(n / 10);
    }
  }

  /** The value of a string of decimal digits (Python's `int(s)` on such a string). */
  function ParseNat(s: string): nat
    requires AllDigits(s)
  {
    if s == [] then 0 else ParseNat(s[..|s| - 1]) * 10 + (s[|s| - 1] as int - '0' as int)
  }

  /** Reading back the decimal form of `n` gives `n`. */
  lemma {:induction false} StrRoundTrip(n: nat)
    ensures ParseNat(Str(n)) == n
  {
    var s := Str(n);
    if n < 10 {
      assert s[..|s| - 1] == [];
    } else {
      assert s[..|s| - 1] == Str(n / 10);
      StrRoundTrip(n / 10);
    }
  }

  /** Different counters give different ids. */
  lemma {:induction false} StrInjective(m: nat, n: nat)
    ensures Str(m) == Str(n) <==> m == n
  {
    if Str(m) == Str(n) {
      StrRoundTrip(m);
      StrRoundTrip(n);
    }
  }
}
