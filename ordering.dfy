/** Python 2's `<` on the values of a status record and on lists of them, as `sorted` uses it:
  * integers come before strings, strings compare by code point, lists lexicographically. */
module Ordering {
  import opened Values

  /** `a < b` on two strings: by code point, a proper prefix being smaller. */
  predicate StrLess(a: string, b: string)
    decreases |a|
  {
    if a == [] then b != []
    else b != [] && (a[0] < b[0] || (a[0] == b[0] && StrLess(a[1..], b[1..])))
  }

  /** `a < b` on two field values: every integer is smaller than every string. */
  predicate ValueLess(a: Value, b: Value) {
    match (a, b)
    case (Int(x), Int(y)) => x < y
    case (Int(_), Str(_)) => true
    case (Str(_), Int(_)) => false
    case (Str(s), Str(t)) => StrLess(s, t)
  }

  /** `a < b` on two lists of values: the first differing element decides, a proper prefix
    * being smaller. */
  predicate RowLess(a: seq<Value>, b: seq<Value>)
    decreases |a|
  {
    if a == [] then b != []
    else b != [] && (ValueLess(a[0], b[0]) || (a[0] == b[0] && RowLess(a[1..], b[1..])))
  }

  lemma {:induction false} StrLessIrreflexive(a: string)
    ensures !StrLess(a, a)
    decreases |a|
  {
    if a != [] {
      StrLessIrreflexive(a[1..]);
    }
  }

  lemma {:induction false} StrLessTransitive(a: string, b: string, c: string)
    requires StrLess(a, b) && StrLess(b, c)
    ensures StrLess(a, c)
    decreases |a|
  {
    if a != [] && a[0] == b[0] && b[0] == c[0] {
      StrLessTransitive(a[1..], b[1..], c[1..]);
    }
  }

  lemma {:induction false} StrLessTotal(a: string, b: string)
    requires a != b
    ensures StrLess(a, b) || StrLess(b, a)
    decreases |a|
  {
    if a != [] && b != [] && a[0] == b[0] {
      assert a == [a[0]] + a[1..] && b == [b[0]] + b[1..];
      StrLessTotal(a[1..], b[1..]);
    }
  }

  lemma ValueLessIrreflexive(a: Value)
    ensures !ValueLess(a, a)
  {
    if a.Str? {
      StrLessIrreflexive(a.text);
    }
  }

  lemma ValueLessTransitive(a: Value, b: Value, c: Value)
    requires ValueLess(a, b) && ValueLess(b, c)
    ensures ValueLess(a, c)
  {
    if a.Str? {
      StrLessTransitive(a.text, b.text, c.text);
    }
  }

  lemma ValueLessTotal(a: Value, b: Value)
    requires a != b
    ensures ValueLess(a, b) || ValueLess(b, a)
  {
    if a.Str? && b.Str? {
      StrLessTotal(a.text, b.text);
    }
  }

  lemma {:induction false} RowLessIrreflexive(a: seq<Value>)
    ensures !RowLess(a, a)
    decreases |a|
  {
    if a != [] {
      ValueLessIrreflexive(a[0]);
      RowLessIrreflexive(a[1..]);
    }
  }

  lemma {:induction false} RowLessTransitive(a: seq<Value>, b: seq<Value>, c: seq<Value>)
    requires RowLess(a, b) && RowLess(b, c)
    ensures RowLess(a, c)
    decreases |a|
  {
    if a != [] {
      if ValueLess(a[0], b[0]) && ValueLess(b[0], c[0]) {
        ValueLessTransitive(a[0], b[0], c[0]);
      } else if a[0] == b[0] && b[0] == c[0] {
        RowLessTransitive(a[1..], b[1..], c[1..]);
      }
    }
  }

  lemma {:induction false} RowLessTotal(a: seq<Value>, b: seq<Value>)
    requires a != b
    ensures RowLess(a, b) || RowLess(b, a)
    decreases |a|
  {
    if a != [] && b != [] {
      if a[0] == b[0] {
        assert a == [a[0]] + a[1..] && b == [b[0]] + b[1..];
        RowLessTotal(a[1..], b[1..]);
      } else {
        ValueLessTotal(a[0], b[0]);
      }
    }
  }

  /** Neither of two rows is smaller than the other only when they are equal. */
  lemma RowLessAntisymmetric(a: seq<Value>, b: seq<Value>)
    requires !RowLess(a, b) && !RowLess(b, a)
    ensures a == b
  {
    if a != b {
      RowLessTotal(a, b);
    }
  }

  /** "Not smaller" is transitive: `a <= b <= c` gives `a <= c`. */
  lemma RowLeTransitive(a: seq<Value>, b: seq<Value>, c: seq<Value>)
    requires !RowLess(b, a) && !RowLess(c, b)
    ensures !RowLess(c, a)
  {
    if RowLess(c, a) {
      if a == b {
      } else if b == c {
      } else {
        RowLessTotal(a, b);
        RowLessTotal(b, c);
        RowLessTransitive(c, a, b);
      }
    }
  }
}
