/** Compound keys joined with a dash, and exactly when two of them coincide. */
module Keys {

  function Join(a: string, b: string): string {
    a + "-" + b
  }

  /** a extended by a dash and x, where x is what the other key has in front of its second part. */
  ghost predicate Shifted(a: string, b: string, a': string, b': string, x: string) {
    a' == Join(a, x) && b == Join(x, b')
  }

  ghost predicate Clash(a: string, b: string, a': string, b': string) {
    (exists x :: Shifted(a, b, a', b', x)) || (exists x :: Shifted(a', b', a, b, x))
  }

  /** Two different pairs share a key exactly when a dash can be shifted from one part to the other. */
  lemma JoinClashes(a: string, b: string, a': string, b': string)
    ensures Join(a, b) == Join(a', b') <==> (a == a' && b == b') || Clash(a, b, a', b')
  {
    if Join(a, b) == Join(a', b') {
      if |a| < |a'| {
        ClashShifts(a, b, a', b');
      } else if |a'| < |a| {
        ClashShifts(a', b', a, b);
      } else {
        assert a == Join(a, b)[..|a|] && a' == Join(a', b')[..|a|];
        assert b == Join(a, b)[|a| + 1..] && b' == Join(a', b')[|a| + 1..];
      }
    } else {
      forall x ensures !Shifted(a, b, a', b', x) && !Shifted(a', b', a, b, x) {
        assert Join(a, Join(x, b')) == Join(Join(a, x), b');
        assert Join(a', Join(x, b)) == Join(Join(a', x), b);
      }
    }
  }

  lemma ClashShifts(a: string, b: string, a': string, b': string)
    requires Join(a, b) == Join(a', b') && |a| < |a'|
    ensures Shifted(a, b, a', b', a'[|a| + 1..])
  {
    var k, x := Join(a, b), a'[|a| + 1..];
    assert a' == k[..|a'|] && a == k[..|a|] && k[|a|] == '-' && Join(a', b')[|a'|] == '-';
    assert a' == a + [k[|a|]] + x;
    assert b == k[|a| + 1..] && b' == k[|a'| + 1..];
    assert b == x + [k[|a'|]] + b';
  }

  /** First parts of one length leave no room for a clash, whatever the second parts are. */
  lemma EqualLengthsNeverClash(a: string, b: string, a': string, b': string)
    requires |a| == |a'|
    ensures !Clash(a, b, a', b')
  {}
}
