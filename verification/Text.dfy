/** The few operations of Go's strings package the modelled code relies on. */
module Text {

  /** unicode.IsSpace. */
  predicate IsSpace(c: char)
  {
    || c in "\t\n\r "
    || c in {'\U{0B}', '\U{0C}', '\U{85}', '\U{A0}', '\U{1680}', '\U{2028}', '\U{2029}', '\U{202F}', '\U{205F}', '\U{3000}'}
    || '\U{2000}' <= c <= '\U{200A}'
  }

  function TrimLeft(s: string): (r: string)
    ensures r != [] ==> !IsSpace(r[0])
  {
    if s != [] && IsSpace(s[0]) then TrimLeft(s[1..]) else s
  }

  function TrimRight(s: string): (r: string)
    ensures r <= s
    ensures r != [] ==> !IsSpace(r[|r| - 1])
  {
    if s != [] && IsSpace(s[|s| - 1]) then TrimRight(s[..|s| - 1]) else s
  }

  /** strings.TrimSpace. */
  function Trim(s: string): string
  {
    TrimRight(TrimLeft(s))
  }

  predicate Trimmed(s: string)
  {
    s != [] ==> !IsSpace(s[0]) && !IsSpace(s[|s| - 1])
  }

  predicate AllSpaces(s: string)
  {
    forall i :: 0 <= i < |s| ==> IsSpace(s[i])
  }

  predicate SurroundedBySpace(s: string, from: int, to: int)
  {
    0 <= from <= to <= |s| && AllSpaces(s[..from]) && AllSpaces(s[to..])
  }

  predicate LeftCut(s: string, n: nat)
  {
    n <= |s| && TrimLeft(s) == s[n..] && AllSpaces(s[..n])
  }

  lemma {:induction false} LeftCutNext(s: string, n: nat)
    requires s != [] && IsSpace(s[0]) && LeftCut(s[1..], n)
    ensures LeftCut(s, n + 1)
  {
    assert s[..n + 1] == [s[0]] + s[1..][..n];
    assert s[n + 1..] == s[1..][n..];
  }

  lemma {:induction false} TrimLeftCuts(s: string) returns (n: nat)
    ensures LeftCut(s, n)
  {
    if s != [] && IsSpace(s[0]) {
      var m := TrimLeftCuts(s[1..]);
      LeftCutNext(s, m);
      n := m + 1;
    } else {
      n := 0;
    }
  }

  lemma {:induction false} TrimRightCuts(s: string)
    ensures AllSpaces(s[|TrimRight(s)|..])
  {
    if s != [] && IsSpace(s[|s| - 1]) {
      TrimRightCuts(s[..|s| - 1]);
      var n := |TrimRight(s)|;
      assert s[n..] == s[..|s| - 1][n..] + [s[|s| - 1]];
    }
  }

  /** Trimming cuts white space off both ends and nothing else. */
  lemma TrimCuts(s: string)
    ensures exists from, to :: SurroundedBySpace(s, from, to) && Trim(s) == s[from..to]
    ensures Trimmed(Trim(s))
  {
    var t, r := TrimLeft(s), Trim(s);
    var n := TrimLeftCuts(s);
    TrimRightCuts(t);
    CutAtBothEnds(s, n, r);
  }

  lemma {:induction false} CutAtBothEnds(s: string, n: nat, r: string)
    requires n <= |s| && AllSpaces(s[..n]) && r <= s[n..] && AllSpaces(s[n..][|r|..])
    ensures SurroundedBySpace(s, n, n + |r|) && r == s[n..n + |r|]
  {
    assert s[n + |r|..] == s[n..][|r|..];
  }

  /** White space by code point. */
  lemma SpaceCodes(c: char)
    ensures var code := c as int;
            IsSpace(c) <==>
            || 9 <= code <= 13 || code == 32 || code == 0x85 || code == 0xA0 || code == 0x1680
            || 0x2000 <= code <= 0x200A || code == 0x2028 || code == 0x2029 || code == 0x202F || code == 0x205F || code == 0x3000
  {
  }

  lemma TrimOfTrimmed(s: string)
    requires Trimmed(s)
    ensures Trim(s) == s
  {
  }

  lemma {:induction false} TrimRightAfter(a: string, b: string)
    ensures TrimRight(a + b) == if TrimRight(b) == [] then TrimRight(a) else a + TrimRight(b)
  {
    if b == [] {
      assert a + b == a;
    } else {
      var last := b[|b| - 1];
      assert (a + b)[..|a + b| - 1] == a + b[..|b| - 1];
      if IsSpace(last) {
        TrimRightAfter(a, b[..|b| - 1]);
      }
    }
  }

  /** Trimming on the right first changes nothing. */
  lemma {:induction false} TrimIdempotentOnRight(s: string)
    ensures Trim(TrimRight(s)) == Trim(s)
  {
    if s != [] && IsSpace(s[0]) {
      TrimRightAfter([s[0]], s[1..]);
      assert [s[0]] + s[1..] == s;
      assert [s[0]][..0] == [];
      TrimIdempotentOnRight(s[1..]);
      if TrimRight(s[1..]) != [] {
        assert ([s[0]] + TrimRight(s[1..]))[1..] == TrimRight(s[1..]);
      }
    } else if s != [] {
      TrimRightKeepsFirst(s);
      TrimRightTwice(s);
    }
  }

  lemma {:induction false} TrimRightKeepsFirst(s: string)
    requires s != [] && !IsSpace(s[0])
    ensures TrimRight(s) != [] && TrimRight(s)[0] == s[0]
  {
    if IsSpace(s[|s| - 1]) {
      TrimRightKeepsFirst(s[..|s| - 1]);
    }
  }

  lemma TrimRightTwice(s: string)
    ensures TrimRight(TrimRight(s)) == TrimRight(s)
  {
  }

  predicate OccursAt(s: string, sub: string, i: nat)
  {
    i + |sub| <= |s| && s[i..i + |sub|] == sub
  }

  /** strings.Index: the first occurrence, or -1. */
  function Index(s: string, sub: string): (i: int)
    ensures i == -1 || (0 <= i && OccursAt(s, sub, i))
    ensures forall k: nat :: (i == -1 || k < i) ==> !OccursAt(s, sub, k)
  {
    IndexFrom(s, sub, 0)
  }

  function IndexFrom(s: string, sub: string, from: nat): (i: int)
    ensures i == -1 || (from <= i && OccursAt(s, sub, i))
    ensures forall k: nat :: from <= k && (i == -1 || k < i) ==> !OccursAt(s, sub, k)
    decreases |s| - from
  {
    if from + |sub| > |s| then -1
    else if OccursAt(s, sub, from) then from
    else IndexFrom(s, sub, from + 1)
  }

  /** strconv.Itoa on a natural number. */
  function Decimal(n: nat): (s: string)
    ensures s != []
    ensures forall i :: 0 <= i < |s| ==> '0' <= s[i] <= '9'
  {
    if n < 10 then [Digit(n)] else Decimal(n / 10) + [Digit(n % 10)]
  }

  function Digit(n: nat): (c: char)
    requires n < 10
    ensures '0' <= c <= '9'
    ensures c as int == '0' as int + n
  {
    '0' + (n as char)
  }

  /** The number that a string of digits denotes. */
  function Denoted(s: string): int
  {
    if s == [] then 0 else 10 * Denoted(s[..|s| - 1]) + (s[|s| - 1] as int - 48)
  }

  lemma {:induction false} DecimalDenotes(n: nat)
    ensures Denoted(Decimal(n)) == n
    ensures n > 0 ==> Decimal(n)[0] != '0'
  {
    if n < 10 {
      assert Denoted([Digit(n)][..0]) == 0;
    } else {
      DecimalDenotes(n / 10);
      assert Decimal(n)[..|Decimal(n)| - 1] == Decimal(n / 10);
    }
  }

  lemma {:induction false} DecimalInjective(a: nat, b: nat)
    requires Decimal(a) == Decimal(b)
    ensures a == b
  {
    DecimalDenotes(a);
    DecimalDenotes(b);
  }
}
