/** The shapes of idempotency keys: order ids, and the keys of cancels and fills made from them. */
module KeyShapes {
  import opened Keys

  predicate Hex(c: char) {
    '0' <= c <= '9' || 'a' <= c <= 'f' || 'A' <= c <= 'F'
  }

  predicate FourHex(s: string) {
    |s| >= 4 && Hex(s[0]) && Hex(s[1]) && Hex(s[2]) && Hex(s[3])
  }

  /** n groups of four hexadecimal digits, each but the last with or without a dash behind it. */
  predicate Groups(s: string, n: nat)
    requires n > 0
    decreases n
  {
    FourHex(s) &&
    if n == 1 then |s| == 4
    else if |s| > 4 && s[4] == '-' then Groups(s[5..], n - 1)
    else Groups(s[4..], n - 1)
  }

  predicate Braced(s: string) {
    |s| > 2 && s[0] == '{' && s[|s| - 1] == '}' && Groups(s[1..|s| - 1], 8)
  }

  /** What a uuid column accepts as text; 8-4-4-4-12 is the form of section 3 of RFC 4122. */
  predicate Uuid(s: string) {
    Groups(s, 8) || Braced(s)
  }

  /** An order is named by its intent, or by its parent's intent and its role. */
  ghost predicate OrderId(s: string) {
    Uuid(s) || (|s| > 3 && Uuid(s[..|s| - 3]) && (s[|s| - 3..] == "-tp" || s[|s| - 3..] == "-sl"))
  }

  ghost predicate FillKey(s: string) {
    exists taker, maker :: OrderId(taker) && OrderId(maker) && s == Join(taker, maker)
  }

  ghost predicate CancelKey(s: string) {
    exists id :: s == id + "-cancel"
  }

  lemma {:induction false} GroupsShape(s: string, n: nat)
    requires n > 0 && Groups(s, n)
    ensures |s| >= 4 * n && Hex(s[0]) && Hex(s[|s| - 1])
    ensures forall i | 0 <= i < |s| :: Hex(s[i]) || s[i] == '-'
    decreases n
  {
    if n > 1 {
      var rest := if s[4] == '-' then s[5..] else s[4..];
      GroupsShape(rest, n - 1);
      assert s == s[..|s| - |rest|] + rest;
    }
  }

  /** No text of the groups continues another one. */
  lemma {:induction false} GroupsArePrefixFree(a: string, b: string, n: nat)
    requires n > 0 && Groups(a, n) && Groups(b, n) && a <= b
    ensures a == b
    decreases n
  {
    if n > 1 {
      assert a[4] == b[4];
      var k := if a[4] == '-' then 5 else 4;
      assert a[k..] <= b[k..];
      GroupsArePrefixFree(a[k..], b[k..], n - 1);
      assert a == a[..k] + a[k..] && b == b[..k] + b[k..];
    }
  }

  lemma UuidShape(s: string)
    requires Uuid(s)
    ensures |s| >= 32 && (Hex(s[0]) || s[0] == '{') && (Hex(s[|s| - 1]) || s[|s| - 1] == '}')
  {
    if Groups(s, 8) {
      GroupsShape(s, 8);
    } else {
      GroupsShape(s[1..|s| - 1], 8);
    }
  }

  lemma BracesClose(a: string, b: string)
    requires Braced(a) && Braced(b) && a <= b
    ensures a == b
  {
    hide Groups, Hex;
    var b' := b[1..|b| - 1];
    GroupsShape(b', 8);
    NoBrace();
    assert forall j | 1 <= j < |b| - 1 :: b[j] == b'[j - 1];
    assert b[|a| - 1] == '}';
  }

  lemma NoBrace()
    ensures !Hex('{') && !Hex('}')
  {}

  lemma UuidsArePrefixFree(a: string, b: string)
    requires Uuid(a) && Uuid(b) && a <= b
    ensures a == b
  {
    hide Groups, Hex;
    NoBrace();
    assert |a| > 0 ==> a[0] == b[0];
    if Groups(a, 8) && Groups(b, 8) {
      GroupsArePrefixFree(a, b, 8);
    } else if Braced(a) && Braced(b) {
      BracesClose(a, b);
    } else {
      var s := if Groups(a, 8) then a else b;
      GroupsShape(s, 8);
    }
  }

  /** The UUID an order id begins with. */
  ghost function Base(s: string): (b: string)
    requires OrderId(s)
    ensures Uuid(b) && b <= s && (s[|b|..] == "" || s[|b|..] == "-tp" || s[|b|..] == "-sl")
  {
    if Uuid(s) then s else s[..|s| - 3]
  }

  lemma OrderIdEnds(s: string)
    requires OrderId(s)
    ensures |s| >= 32 && (Hex(s[0]) || s[0] == '{')
    ensures s[|s| - 1] == 'l' ==> s[|s| - 3] == '-'
  {
    var b := Base(s);
    UuidShape(b);
    assert s == b + s[|b|..];
  }

  lemma SameBase(a: string, s: string)
    requires OrderId(a) && OrderId(s) && a <= s
    ensures Base(a) == Base(s)
  {
    hide Uuid, OrderId;
    var b, c := Base(a), Base(s);
    if |b| <= |c| {
      assert b <= c;
      UuidsArePrefixFree(b, c);
    } else {
      assert c <= b;
      UuidsArePrefixFree(c, b);
    }
  }

  /** What an order id continues with a dash is no order id unless it is its suffix that continues. */
  lemma NothingFollows(a: string, x: string)
    requires OrderId(a) && OrderId(Join(a, x))
    ensures x == "tp" || x == "sl"
  {
    hide Uuid, OrderId;
    var s := Join(a, x);
    var b := Base(a);
    SameBase(a, s);
    assert s[|b|..] == a[|b|..] + "-" + x;
    assert s[|b|..] == "-tp" || s[|b|..] == "-sl";
    assert x == s[|b|..][1..];
  }

  lemma EndsLikeACancel(s: string)
    requires CancelKey(s)
    ensures |s| >= 7 && s[|s| - 1] == 'l' && s[|s| - 3] == 'c'
  {
    var id :| s == id + "-cancel";
  }

  lemma FillKeyShape(s: string)
    requires FillKey(s)
    ensures !CancelKey(s)
  {
    var taker, maker :| OrderId(taker) && OrderId(maker) && s == Join(taker, maker);
    OrderIdEnds(maker);
    if CancelKey(s) {
      EndsLikeACancel(s);
    }
  }

  lemma OrderIdShape(s: string)
    requires OrderId(s)
    ensures !CancelKey(s) && !FillKey(s) && s != ""
  {
    OrderIdEnds(s);
    if CancelKey(s) {
      EndsLikeACancel(s);
    }
    forall taker, maker | OrderId(taker) && OrderId(maker) ensures s != Join(taker, maker) {
      OrderIdEnds(maker);
      if s == Join(taker, maker) {
        NothingFollows(taker, maker);
      }
    }
  }

  /** Keys of fills never collide: the dash that joins two order ids can be found again. */
  lemma FillKeysAreInjective(taker: string, maker: string, taker': string, maker': string)
    requires OrderId(taker) && OrderId(maker) && OrderId(taker') && OrderId(maker')
    requires Join(taker, maker) == Join(taker', maker')
    ensures taker == taker' && maker == maker'
  {
    JoinClashes(taker, maker, taker', maker');
    forall x ensures !Shifted(taker, maker, taker', maker', x) { NoShift(taker, maker, taker', maker', x); }
    forall x ensures !Shifted(taker', maker', taker, maker, x) { NoShift(taker', maker', taker, maker, x); }
  }

  lemma NoShift(a: string, b: string, a': string, b': string, x: string)
    requires OrderId(a) && OrderId(b) && OrderId(a') && OrderId(b')
    ensures !Shifted(a, b, a', b', x)
  {
    OrderIdEnds(b);
    if a' == Join(a, x) {
      NothingFollows(a, x);
      assert Join(x, b')[0] == x[0];
    }
  }
}
