/** The order `Array.prototype.sort()` uses when no comparator is given:
    strings compared character by character, a proper prefix first. */
module StringOrder {
  import opened Decimal

  predicate Less(a: string, b: string) {
    if a == [] then b != []
    else if b == [] then false
    else a[0] < b[0] || (a[0] == b[0] && Less(a[1..], b[1..]))
  }

  lemma {:induction false} Irreflexive(a: string)
    ensures !Less(a, a)
  {
    if a != [] { Irreflexive(a[1..]); }
  }

  lemma {:induction false} Transitive(a: string, b: string, c: string)
    requires Less(a, b) && Less(b, c)
    ensures Less(a, c)
  {
    if a != [] && b != [] && c != [] && a[0] == b[0] == c[0] {
      Transitive(a[1..], b[1..], c[1..]);
    }
  }

  lemma {:induction false} Total(a: string, b: string)
    requires a != b
    ensures Less(a, b) || Less(b, a)
  {
    if a != [] && b != [] && a[0] == b[0] {
      assert a == [a[0]] + a[1..] && b == [b[0]] + b[1..];
      Total(a[1..], b[1..]);
    }
  }

  lemma Asymmetric(a: string, b: string)
    requires Less(a, b)
    ensures !Less(b, a)
  {
    if Less(b, a) {
      Transitive(a, b, a);
      Irreflexive(a);
    }
  }

  /** Comparing two concatenations whose first parts have the same length
      compares the first parts, then the second parts. */
  lemma {:induction false} LessConcat(p: string, q: string, p': string, q': string)
    requires |p| == |p'|
    ensures Less(p + q, p' + q') <==> Less(p, p') || (p == p' && Less(q, q'))
  {
    if p != [] {
      assert (p + q)[1..] == p[1..] + q;
      assert (p' + q')[1..] == p'[1..] + q';
      LessConcat(p[1..], q, p'[1..], q');
      if p[0] == p'[0] {
        assert p == p' <==> p[1..] == p'[1..] by {
          assert p == [p[0]] + p[1..] && p' == [p'[0]] + p'[1..];
        }
      }
    } else {
      assert p + q == q && p' + q' == q';
    }
  }

  /** Decimal renderings of the same length compare as the numbers do. */
  lemma {:induction false} DecimalOrder(a: nat, b: nat)
    requires |NatToString(a)| == |NatToString(b)|
    ensures Less(NatToString(a), NatToString(b)) <==> a < b
  {
    if a >= 10 {
      var s, t := NatToString(a / 10), NatToString(b / 10);
      var x, y := DigitChar(a % 10), DigitChar(b % 10);
      assert NatToString(a) == s + [x] && NatToString(b) == t + [y];
      DecimalOrder(a / 10, b / 10);
      LessConcat(s, [x], t, [y]);
      NatToStringInjective(a / 10, b / 10);
      assert a == a / 10 * 10 + a % 10 && b == b / 10 * 10 + b % 10;
      if a / 10 < b / 10 {
        assert a / 10 * 10 + 10 <= b / 10 * 10;
      } else if b / 10 < a / 10 {
        assert b / 10 * 10 + 10 <= a / 10 * 10;
      }
    }
  }
}
