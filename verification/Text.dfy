// Strings as the cache compares them: JavaScript's `<` on strings, the order
// IndexedDB uses for keys, and decimal numerals.

module Text {

  datatype Option<+T> = None | Some(value: T)

  datatype Result<+T, +E> = Ok(value: T) | Err(error: E)

  /** Lexicographic order on code units: `a < b` for JavaScript strings. */
  predicate Less(a: string, b: string)
  {
    b != [] && (a == [] || a[0] < b[0] || (a[0] == b[0] && Less(a[1..], b[1..])))
  }

  lemma {:induction false} LessIrreflexive(a: string)
    ensures !Less(a, a)
  {
    if a != [] {
      LessIrreflexive(a[1..]);
    }
  }

  lemma {:induction false} LessTotal(a: string, b: string)
    ensures a == b || Less(a, b) || Less(b, a)
  {
    if a != [] && b != [] && a[0] == b[0] {
      LessTotal(a[1..], b[1..]);
      assert a == [a[0]] + a[1..] && b == [b[0]] + b[1..];
    }
  }

  lemma {:induction false} LessTransitive(a: string, b: string, c: string)
    requires Less(a, b) && Less(b, c)
    ensures Less(a, c)
  {
    if a != [] && a[0] == b[0] && b[0] == c[0] {
      LessTransitive(a[1..], b[1..], c[1..]);
    }
  }

  lemma {:induction false} LessAsymmetric(a: string, b: string)
    requires Less(a, b)
    ensures !Less(b, a)
  {
    if a != [] && a[0] == b[0] {
      LessAsymmetric(a[1..], b[1..]);
    }
  }

  /** Two keys of the same shape compare field by field. */
  lemma {:induction false} LessConcat(p: string, x: string, q: string, y: string)
    requires |p| == |q|
    ensures Less(p + x, q + y) <==> Less(p, q) || (p == q && Less(x, y))
  {
    if p == [] {
      assert p + x == x && q + y == y;
    } else {
      LessConcat(p[1..], x, q[1..], y);
      assert (p + x)[1..] == p[1..] + x && (q + y)[1..] == q[1..] + y;
      assert p == [p[0]] + p[1..] && q == [q[0]] + q[1..];
    }
  }

  // ----- Decimal numerals -----

  predicate IsDigit(c: char)
  {
    '0' <= c <= '9'
  }

  predicate IsNumeral(s: string)
  {
    forall i :: 0 <= i < |s| ==> IsDigit(s[i])
  }

  function DigitValue(c: char): nat
    requires IsDigit(c)
  {
    c as int - '0' as int
  }

  /** The number a string of digits denotes; the empty string denotes zero. */
  function Number(s: string): nat
    requires IsNumeral(s)
  {
    if s == [] then 0 else 10 * Number(s[..|s| - 1]) + DigitValue(s[|s| - 1])
  }

  /** `String(n)` for a non-negative integer. */
  function Numeral(n: nat): (s: string)
    ensures s != [] && IsNumeral(s) && Number(s) == n
  {
    var last := ['0' + (n % 10) as char];
    if n < 10 then
      last
    else
      var s := Numeral(n / 10) + last;
      assert s[..|s| - 1] == Numeral(n / 10);
      s
  }

  function Pow10(k: nat): nat
  {
    if k == 0 then 1 else 10 * Pow10(k - 1)
  }

  lemma {:induction false} NumeralLength(n: nat, k: nat)
    requires k > 0 && n < Pow10(k)
    ensures |Numeral(n)| <= k
  {
    if n >= 10 {
      NumeralLength(n / 10, k - 1);
    }
  }

  /** On numerals of one width, text order is numeric order. */
  lemma {:induction false} NumeralOrder(x: string, y: string)
    requires |x| == |y| && IsNumeral(x) && IsNumeral(y)
    ensures Less(x, y) <==> Number(x) < Number(y)
    ensures x == y <==> Number(x) == Number(y)
  {
    if x != [] {
      var n := |x| - 1;
      NumeralOrder(x[..n], y[..n]);
      assert x == x[..n] + [x[n]] && y == y[..n] + [y[n]];
      LessConcat(x[..n], [x[n]], y[..n], [y[n]]);
      assert [x[n]][1..] == [] && [y[n]][1..] == [];
      assert Less([x[n]], [y[n]]) <==> x[n] < y[n];
    }
  }

  function Zeros(k: nat): (s: string)
    ensures |s| == k && IsNumeral(s)
  {
    seq(k, _ => '0')
  }

  lemma {:induction false} NumberOfZeros(k: nat)
    ensures Number(Zeros(k)) == 0
  {
    if k > 0 {
      assert Zeros(k)[..k - 1] == Zeros(k - 1);
      NumberOfZeros(k - 1);
    }
  }

  lemma {:induction false} PaddingKeepsNumber(k: nat, s: string)
    requires IsNumeral(s)
    ensures IsNumeral(Zeros(k) + s) && Number(Zeros(k) + s) == Number(s)
  {
    if s == [] {
      assert Zeros(k) + s == Zeros(k);
      NumberOfZeros(k);
    } else {
      var n := |s| - 1;
      PaddingKeepsNumber(k, s[..n]);
      var t := Zeros(k) + s;
      assert t[..|t| - 1] == Zeros(k) + s[..n];
    }
  }

  // ----- First key of an index range -----

  predicate IsFirst(m: string, keys: set<string>)
  {
    m in keys && forall k :: k in keys ==> k == m || Less(m, k)
  }

  lemma {:induction false} FirstExists(keys: set<string>)
    requires keys != {}
    ensures exists m :: IsFirst(m, keys)
    decreases |keys|
  {
    var x :| x in keys;
    if keys == {x} {
      assert IsFirst(x, keys);
    } else {
      var rest := keys - {x};
      FirstExists(rest);
      var m :| IsFirst(m, rest);
      LessTotal(x, m);
      if Less(x, m) {
        forall k | k in keys ensures k == x || Less(x, k) {
          if k != x && k != m {
            LessTransitive(x, m, k);
          }
        }
        assert IsFirst(x, keys);
      } else {
        assert IsFirst(m, keys);
      }
    }
  }

  lemma FirstUnique(m: string, n: string, keys: set<string>)
    requires IsFirst(m, keys) && IsFirst(n, keys)
    ensures m == n
  {
    if m != n {
      LessAsymmetric(m, n);
    }
  }

  /** `.first()` on an index range: the hit with the least primary key. */
  function First(keys: set<string>): (r: Option<string>)
    ensures r.None? <==> keys == {}
    ensures r.Some? ==> IsFirst(r.value, keys)
  {
    if keys == {} then
      None
    else
      FirstExists(keys);
      assert forall m, n :: IsFirst(m, keys) && IsFirst(n, keys) ==> m == n by {
        forall m, n | IsFirst(m, keys) && IsFirst(n, keys) ensures m == n {
          FirstUnique(m, n, keys);
        }
      }
      var m :| m in keys && IsFirst(m, keys);
      Some(m)
  }
}
