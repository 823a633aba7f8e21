/**
 * The order SQLite's BINARY collation puts on TEXT values: `memcmp` of the
 * UTF-8 encodings, a proper prefix sorting first.  For valid Unicode scalar
 * values, comparing UTF-8 byte strings agrees with comparing code points, so
 * the order is stated directly on `string`.
 */
module TextOrder {

  /** `a` sorts strictly before `b`. */
  predicate Less(a: string, b: string)
  {
    if |a| == 0 then |b| > 0
    else if |b| == 0 then false
    else if a[0] != b[0] then a[0] < b[0]
    else Less(a[1..], b[1..])
  }

  /** The order as usually defined: `a` is a proper prefix of `b`, or the
      strings first differ at a position where `a` has the smaller character. */
  ghost predicate LessByPosition(a: string, b: string)
  {
    (|a| < |b| && a == b[..|a|])
    || exists k :: 0 <= k < |a| && k < |b| && a[..k] == b[..k] && a[k] < b[k]
  }

  lemma LessMatchesPosition(a: string, b: string)
    ensures Less(a, b) <==> LessByPosition(a, b)
  {
    if Less(a, b) {
      LessHasPosition(a, b);
    }
    if LessByPosition(a, b) {
      PositionGivesLess(a, b);
    }
  }

  lemma {:induction false} LessHasPosition(a: string, b: string)
    requires Less(a, b)
    ensures LessByPosition(a, b)
  {
    if |a| == 0 {
      assert a == b[..0];
    } else if a[0] != b[0] {
      assert a[..0] == b[..0];
    } else {
      var a', b' := a[1..], b[1..];
      LessHasPosition(a', b');
      if |a'| < |b'| && a' == b'[..|a'|] {
        assert a == [a[0]] + a' && b[..|a|] == [b[0]] + b'[..|a'|];
      } else {
        var k :| 0 <= k < |a'| && k < |b'| && a'[..k] == b'[..k] && a'[k] < b'[k];
        assert a[..k + 1] == [a[0]] + a'[..k];
        assert b[..k + 1] == [b[0]] + b'[..k];
        assert a[k + 1] == a'[k] && b[k + 1] == b'[k];
      }
    }
  }

  lemma {:induction false} PositionGivesLess(a: string, b: string)
    requires LessByPosition(a, b)
    ensures Less(a, b)
  {
    if |a| == 0 {
    } else if |a| < |b| && a == b[..|a|] {
      assert a[0] == b[0];
      assert a[1..] == b[1..][..|a[1..]|];
      PositionGivesLess(a[1..], b[1..]);
    } else {
      var k :| 0 <= k < |a| && k < |b| && a[..k] == b[..k] && a[k] < b[k];
      if k > 0 {
        assert a[0] == a[..k][0] && b[0] == b[..k][0];
        assert a[1..][..k - 1] == a[..k][1..] && b[1..][..k - 1] == b[..k][1..];
        assert a[1..][k - 1] == a[k] && b[1..][k - 1] == b[k];
        PositionGivesLess(a[1..], b[1..]);
      }
    }
  }

  lemma {:induction false} Irreflexive(a: string)
    ensures !Less(a, a)
  {
    if |a| > 0 {
      Irreflexive(a[1..]);
    }
  }

  lemma {:induction false} Asymmetric(a: string, b: string)
    requires Less(a, b)
    ensures !Less(b, a)
  {
    if |a| > 0 && |b| > 0 && a[0] == b[0] {
      Asymmetric(a[1..], b[1..]);
    }
  }

  lemma {:induction false} Transitive(a: string, b: string, c: string)
    requires Less(a, b) && Less(b, c)
    ensures Less(a, c)
  {
    if |a| > 0 && a[0] == b[0] && b[0] == c[0] {
      Transitive(a[1..], b[1..], c[1..]);
    }
  }

  lemma {:induction false} Total(a: string, b: string)
    requires a != b
    ensures Less(a, b) || Less(b, a)
  {
    if |a| > 0 && |b| > 0 && a[0] == b[0] {
      assert a == [a[0]] + a[1..] && b == [b[0]] + b[1..];
      Total(a[1..], b[1..]);
    }
  }
}
