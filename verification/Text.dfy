/** The Go string functions the client and the server rely on: strings.TrimRight, strings.TrimSpace,
    strings.Split, strconv.Atoi and the %d verb. */
module Text {
  import opened Wrappers
  import Int64

  /** strings.TrimRight with a one-character cut set. */
  function TrimRight(s: string, c: char): (r: string)
    ensures r <= s
    ensures forall i :: |r| <= i < |s| ==> s[i] == c
    ensures r == [] || r[|r| - 1] != c
  {
    if s != [] && s[|s| - 1] == c then TrimRight(s[..|s| - 1], c) else s
  }

  /** The contract of TrimRight has one solution. */
  lemma TrimRightUnique(s: string, c: char, r: string)
    requires r <= s
    requires forall i :: |r| <= i < |s| ==> s[i] == c
    requires r == [] || r[|r| - 1] != c
    ensures r == TrimRight(s, c)
  {
  }

  /** Trimming only touches the tail: a prefix not ending in c stays in front. */
  lemma TrimRightAppend(a: string, b: string, c: char)
    requires a != [] && a[|a| - 1] != c
    ensures TrimRight(a + b, c) == a + TrimRight(b, c)
  {
    var r := a + TrimRight(b, c);
    assert r <= a + b;
    TrimRightUnique(a + b, c, r);
  }

  /** unicode.IsSpace. */
  predicate IsSpace(c: char) {
    || '\U{0009}' <= c <= '\U{000D}' || c == ' ' || c == '\U{0085}' || c == '\U{00A0}' || c == '\U{1680}'
    || '\U{2000}' <= c <= '\U{200A}' || c == '\U{2028}' || c == '\U{2029}' || c == '\U{202F}' || c == '\U{205F}'
    || c == '\U{3000}'
  }

  predicate AllSpace(s: string) {
    forall c | c in s :: IsSpace(c)
  }

  /** No white space at either end. */
  predicate Bare(s: string) {
    s == [] || (!IsSpace(s[0]) && !IsSpace(s[|s| - 1]))
  }

  function TrimSpaceLeft(s: string): (r: string)
    ensures r == [] || !IsSpace(r[0])
  {
    if s != [] && IsSpace(s[0]) then TrimSpaceLeft(s[1..]) else s
  }

  function TrimSpaceRight(s: string): (r: string)
    ensures r <= s
    ensures r == [] || !IsSpace(r[|r| - 1])
  {
    if s != [] && IsSpace(s[|s| - 1]) then TrimSpaceRight(s[..|s| - 1]) else s
  }

  /** strings.TrimSpace. */
  function TrimSpace(s: string): (r: string)
    ensures Bare(r)
  {
    TrimSpaceRight(TrimSpaceLeft(s))
  }

  lemma {:induction false} TrimSpaceLeftPadded(left: string, s: string)
    requires AllSpace(left)
    ensures TrimSpaceLeft(left + s) == TrimSpaceLeft(s)
  {
    if left == [] {
      assert left + s == s;
    } else {
      assert left[0] in left && (left + s)[0] == left[0];
      assert (left + s)[1..] == left[1..] + s;
      TrimSpaceLeftPadded(left[1..], s);
    }
  }

  lemma {:induction false} TrimSpaceRightPadded(s: string, right: string)
    requires AllSpace(right)
    ensures TrimSpaceRight(s + right) == TrimSpaceRight(s)
  {
    if right == [] {
      assert s + right == s;
    } else {
      var n := |right| - 1;
      assert right[n] in right && (s + right)[|s| + n] == right[n];
      assert (s + right)[..|s| + n] == s + right[..n];
      TrimSpaceRightPadded(s, right[..n]);
    }
  }

  /** TrimSpace recovers a bare text from any white-space padding. */
  lemma TrimSpacePadded(left: string, s: string, right: string)
    requires AllSpace(left) && AllSpace(right) && Bare(s)
    ensures TrimSpace(left + s + right) == s
  {
    assert left + s + right == left + (s + right);
    TrimSpaceLeftPadded(left, s + right);
    if s == [] {
      assert s + right == right + [];
      TrimSpaceLeftPadded(right, []);
    } else {
      TrimSpaceRightPadded(s, right);
    }
  }

  function Join(parts: seq<string>, sep: char): string
    requires parts != []
  {
    if |parts| == 1 then parts[0] else parts[0] + [sep] + Join(parts[1..], sep)
  }

  /** strings.Split with a one-character separator. */
  function Split(s: string, sep: char): (parts: seq<string>)
    ensures parts != []
    ensures forall p :: p in parts ==> sep !in p
  {
    if s == [] then [[]]
    else
      var rest := Split(s[1..], sep);
      if s[0] == sep then [[]] + rest else [[s[0]] + rest[0]] + rest[1..]
  }

  /** Splitting loses nothing. */
  lemma {:induction false} JoinSplit(s: string, sep: char)
    ensures Join(Split(s, sep), sep) == s
  {
    if s == [] {
    } else {
      JoinSplit(s[1..], sep);
      var rest := Split(s[1..], sep);
      if s[0] == sep {
        assert ([[]] + rest)[1..] == rest;
        assert s == [] + [sep] + s[1..];
      } else {
        var parts := [[s[0]] + rest[0]] + rest[1..];
        assert parts[1..] == rest[1..];
        assert s == [s[0]] + s[1..];
      }
    }
  }

  /** A text before the first separator is the first part. */
  lemma {:induction false} SplitFirst(p: string, tail: string, sep: char)
    requires sep !in p
    ensures Split(p + [sep] + tail, sep) == [p] + Split(tail, sep)
  {
    var s := p + [sep] + tail;
    if p == [] {
      assert s[1..] == tail;
    } else {
      SplitFirst(p[1..], tail, sep);
      assert s[1..] == p[1..] + [sep] + tail;
      assert p == [p[0]] + p[1..];
    }
  }

  lemma {:induction false} SplitNone(p: string, sep: char)
    requires sep !in p
    ensures Split(p, sep) == [p]
  {
    if p == [] {
    } else {
      SplitNone(p[1..], sep);
      assert p == [p[0]] + p[1..];
    }
  }

  /** Splitting a joined list gives the list back. */
  lemma {:induction false} SplitJoin(parts: seq<string>, sep: char)
    requires parts != [] && forall p :: p in parts ==> sep !in p
    ensures Split(Join(parts, sep), sep) == parts
  {
    if |parts| == 1 {
      SplitNone(parts[0], sep);
    } else {
      SplitJoin(parts[1..], sep);
      SplitFirst(parts[0], Join(parts[1..], sep), sep);
    }
  }

  predicate IsDigit(c: char) {
    '0' <= c <= '9'
  }

  predicate AllDigits(s: string) {
    forall c | c in s :: IsDigit(c)
  }

  function DigitsValue(s: string): nat
    requires AllDigits(s)
  {
    if s == [] then 0
    else
      assert s[|s| - 1] in s;
      10 * DigitsValue(s[..|s| - 1]) + (s[|s| - 1] as int - '0' as int)
  }

  /** strconv.Atoi where int has 64 bits: an optional sign, then digits, within range. */
  function Atoi(s: string): (r: Option<int>)
    ensures r.Some? ==> Int64.InRange(r.value)
  {
    var signed := s != [] && (s[0] == '+' || s[0] == '-');
    var digits := if signed then s[1..] else s;
    if digits == [] || !AllDigits(digits) then None
    else
      var v: int := if signed && s[0] == '-' then 0 - DigitsValue(digits) else DigitsValue(digits);
      if Int64.InRange(v) then Some(v) else None
  }

  /** The %d verb on a non-negative number. */
  function Decimal(n: nat): (s: string)
    ensures s != [] && AllDigits(s) && DigitsValue(s) == n
  {
    var last := [('0' as int + n % 10) as char];
    if n < 10 then last else Decimal(n / 10) + last
  }

  /** %d writes no leading zeros. */
  lemma {:induction false} DecimalCanonical(n: nat)
    ensures if n == 0 then Decimal(n) == "0" else Decimal(n)[0] != '0'
  {
    if n < 10 {
    } else {
      DecimalCanonical(n / 10);
      assert Decimal(n)[0] == Decimal(n / 10)[0];
    }
  }

  /** Digits count in tens, from '0' to '9'. */
  lemma DigitsInTens(s: string, d: int)
    requires AllDigits(s) && 0 <= d < 10
    ensures DigitsValue("") == 0
    ensures AllDigits(s + ["0123456789"[d]]) && DigitsValue(s + ["0123456789"[d]]) == 10 * DigitsValue(s) + d
  {
    assert (s + ["0123456789"[d]])[..|s|] == s;
  }

  /** Atoi takes one sign and then digits only, at least one, and no value beyond 64 bits. */
  lemma AtoiExact(s: string)
    ensures var digits := if "+" <= s || "-" <= s then s[1..] else s;
            if digits == "" || !AllDigits(digits) then Atoi(s) == None
            else
              var value: int := if "-" <= s then 0 - DigitsValue(digits) else DigitsValue(digits);
              Atoi(s) == if -9_223_372_036_854_775_808 <= value <= 9_223_372_036_854_775_807 then Some(value) else None
  {
    assert "+" <= s <==> s != "" && s[0] == '+';
    assert "-" <= s <==> s != "" && s[0] == '-';
  }

  /** Unicode's white space, by code point. */
  lemma WhiteSpace(c: char)
    ensures IsSpace(c) <==>
            c as int in {9, 10, 11, 12, 13, 32, 133, 160, 5760, 8192, 8193, 8194, 8195, 8196, 8197, 8198, 8199, 8200,
                         8201, 8202, 8232, 8233, 8239, 8287, 12288}
  {
  }

  /** Atoi reads back every decimal numeral of an int64, and rejects the larger ones. */
  lemma AtoiDecimal(n: nat)
    ensures Atoi(Decimal(n)) == if n <= Int64.MAX then Some(n) else None
  {
    var s := Decimal(n);
    assert s[0] in s;
  }

  predicate HasPrefix(s: string, prefix: string) {
    prefix <= s
  }
}
