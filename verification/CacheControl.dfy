/** The Cache-Control max-age parser and the cache lifetime it yields, in int64 nanoseconds. */
module CacheControl {
  import opened Wrappers
  import Int64
  import Text

  const SECOND: int := 1_000_000_000
  const PREFIX := "max-age="

  /** The largest number of seconds whose nanoseconds fit in an int64. */
  const MAX_SECONDS: int := 9_223_372_036

  predicate IsMaxAge(part: string) {
    Text.HasPrefix(Text.TrimSpace(part), PREFIX)
  }

  /** What follows max-age= in a directive. */
  function Argument(part: string): string
    requires IsMaxAge(part)
  {
    Text.TrimSpace(part)[|PREFIX|..]
  }

  /** The lifetime one argument stands for: 0 when it is not a positive int64; the product may wrap. */
  function Lifetime(argument: string): int {
    match Text.Atoi(argument)
    case None => 0
    case Some(seconds) => if seconds <= 0 then 0 else Int64.Wrap(seconds * SECOND)
  }

  /** The index of the first max-age directive from i on, or the length. */
  function FirstFrom(parts: seq<string>, i: nat): (k: nat)
    requires i <= |parts|
    ensures i <= k <= |parts| && forall j | i <= j < k :: !IsMaxAge(parts[j])
    ensures k < |parts| ==> IsMaxAge(parts[k])
    decreases |parts| - i
  {
    if i == |parts| || IsMaxAge(parts[i]) then i else FirstFrom(parts, i + 1)
  }

  /** The lifetime a list of directives stands for: the first max-age directive alone decides. */
  function MaxAge(parts: seq<string>): int {
    var k := FirstFrom(parts, 0);
    if k < |parts| then Lifetime(Argument(parts[k])) else 0
  }

  method ParseMaxAge(header: string) returns (ttl: int)
    ensures ttl == MaxAge(Text.Split(header, ','))
  {
    var parts := Text.Split(header, ',');
    ghost var k := FirstFrom(parts, 0);
    if header == "" {
      assert parts == [""] && !IsMaxAge("");
      return 0;
    }
    for i := 0 to |parts|
      invariant forall j | 0 <= j < i :: !IsMaxAge(parts[j])
    {
      var part := Text.TrimSpace(parts[i]);
      if !Text.HasPrefix(part, PREFIX) {
        continue;
      }
      assert k == i;
      var argument := part[|PREFIX|..];
      var seconds := Text.Atoi(argument);
      if seconds.None? || seconds.value <= 0 {
        return 0;
      }
      return Int64.Wrap(seconds.value * SECOND);
    }
    return 0;
  }

  // ----- Headers as servers write them -----

  /** A directive, free of commas and of white space at its ends, with the white space around it. */
  datatype Directive = Directive(left: string, text: string, right: string) {
    predicate Valid() {
      && Text.AllSpace(left) && Text.AllSpace(right) && Text.Bare(text)
      && ',' !in text
    }

    function Padded(): string {
      left + text + right
    }
  }

  function Parts(ds: seq<Directive>): (parts: seq<string>)
    ensures |parts| == |ds| && forall i | 0 <= i < |ds| :: parts[i] == ds[i].Padded()
  {
    seq(|ds|, i requires 0 <= i < |ds| => ds[i].Padded())
  }

  /** The header that lists ds. */
  function Header(ds: seq<Directive>): string
    requires ds != []
  {
    Text.Join(Parts(ds), ',')
  }

  lemma TrimDirective(d: Directive)
    requires d.Valid()
    ensures Text.TrimSpace(d.Padded()) == d.text && ',' !in d.Padded()
  {
    assert !Text.IsSpace(',');
    Text.TrimSpacePadded(d.left, d.text, d.right);
  }

  lemma SplitHeader(ds: seq<Directive>)
    requires ds != [] && forall k | 0 <= k < |ds| :: ds[k].Valid()
    ensures Text.Split(Header(ds), ',') == Parts(ds)
  {
    forall p | p in Parts(ds)
      ensures ',' !in p
    {
      var k :| 0 <= k < |ds| && p == Parts(ds)[k];
      TrimDirective(ds[k]);
    }
    Text.SplitJoin(Parts(ds), ',');
  }

  predicate FirstMaxAge(ds: seq<Directive>, k: int)
    requires 0 <= k < |ds|
  {
    Text.HasPrefix(ds[k].text, PREFIX) && forall j | 0 <= j < k :: !Text.HasPrefix(ds[j].text, PREFIX)
  }

  lemma DirectiveIsMaxAge(d: Directive)
    requires d.Valid()
    ensures IsMaxAge(d.Padded()) <==> Text.HasPrefix(d.text, PREFIX)
    ensures IsMaxAge(d.Padded()) ==> Argument(d.Padded()) == d.text[|PREFIX|..]
  {
    TrimDirective(d);
  }

  /** For any directive list and any padding, the first directive whose text starts with max-age= decides. */
  lemma HeaderLifetime(ds: seq<Directive>, k: int)
    requires ds != [] && forall i | 0 <= i < |ds| :: ds[i].Valid()
    requires 0 <= k < |ds| && FirstMaxAge(ds, k)
    ensures MaxAge(Text.Split(Header(ds), ',')) == Lifetime(ds[k].text[|PREFIX|..])
  {
    SplitHeader(ds);
    forall i | 0 <= i <= k
      ensures IsMaxAge(Parts(ds)[i]) <==> i == k
    {
      DirectiveIsMaxAge(ds[i]);
    }
    DirectiveIsMaxAge(ds[k]);
    assert FirstFrom(Parts(ds), 0) == k;
  }

  /** Without such a directive there is no lifetime. */
  lemma HeaderWithoutMaxAge(ds: seq<Directive>)
    requires ds != [] && forall i | 0 <= i < |ds| :: ds[i].Valid()
    requires forall i | 0 <= i < |ds| :: !Text.HasPrefix(ds[i].text, PREFIX)
    ensures MaxAge(Text.Split(Header(ds), ',')) == 0
  {
    SplitHeader(ds);
    forall i | 0 <= i < |ds|
      ensures !IsMaxAge(Parts(ds)[i])
    {
      DirectiveIsMaxAge(ds[i]);
    }
  }

  // ----- The arithmetic of one directive -----

  /** A decimal number of seconds gives exactly that lifetime if and only if its nanoseconds fit. */
  lemma LifetimeExact(n: nat)
    requires n >= 1
    ensures Lifetime(Text.Decimal(n)) == n * SECOND <==> n <= MAX_SECONDS
  {
    Text.AtoiDecimal(n);
  }

  /** Just above the bound the lifetime is negative: the document is stored already expired. */
  lemma LifetimeNegative(n: nat)
    requires MAX_SECONDS < n <= 18_446_744_073
    ensures Lifetime(Text.Decimal(n)) < 0
  {
    Text.AtoiDecimal(n);
  }

  /** One second further up it is positive again, and far shorter than what was asked for. */
  lemma LifetimeWrapsAround()
    ensures Lifetime(Text.Decimal(18_446_744_074)) == 290_448_384
  {
    Text.AtoiDecimal(18_446_744_074);
  }

  /** The sign of the lifetime that a positive number of seconds gives, from the 64 bits of the product: none on
      multiples of 2^55, negative when the top bit is set, and positive otherwise. It is never longer than what was
      asked for, and exactly that long up to the bound and not beyond. */
  lemma LifetimeSign(argument: string)
    requires Text.Atoi(argument).Some? && Text.Atoi(argument).value > 0
    ensures var seconds, ttl := Text.Atoi(argument).value, Lifetime(argument);
            && (ttl == 0 <==> seconds % TWO55 == 0)
            && (ttl < 0 <==> (seconds * SECOND) % Int64.TWO64 > Int64.MAX)
            && (ttl > 0 <==> seconds % TWO55 != 0 && (seconds * SECOND) % Int64.TWO64 <= Int64.MAX)
            && ttl <= seconds * SECOND && (ttl == seconds * SECOND <==> seconds <= MAX_SECONDS)
  {
    ProductVanishes(Text.Atoi(argument).value);
  }

  /** The same through a whole header, wherever the directive stands and however it is padded. */
  lemma HeaderSeconds(ds: seq<Directive>, k: int, n: nat)
    requires ds != [] && forall i | 0 <= i < |ds| :: ds[i].Valid()
    requires 0 <= k < |ds| && FirstMaxAge(ds, k) && ds[k].text == PREFIX + Text.Decimal(n) && n >= 1
    ensures MaxAge(Text.Split(Header(ds), ',')) == n * SECOND <==> n <= MAX_SECONDS
  {
    HeaderLifetime(ds, k);
    assert ds[k].text[|PREFIX|..] == Text.Decimal(n);
    LifetimeExact(n);
  }

  /** A header as servers commonly send it: N seconds, alone, or after another directive, a comma and a space. */
  lemma PlainHeader(other: string, text: string, n: nat)
    requires Text.Bare(other) && ',' !in other && !("max-age=" <= other) && 1 <= n <= 9_223_372_036
    requires text == "max-age=" + Text.Decimal(n)
    ensures MaxAge(Text.Split(text, ',')) == n * 1_000_000_000
    ensures MaxAge(Text.Split(other + ", " + text, ',')) == n * 1_000_000_000
  {
    PlainAlone(n);
    PlainAfter(other, text, n);
    CommaSpace(other, text);
  }

  lemma CommaSpace(a: string, b: string)
    ensures a + "," + (" " + b) == a + ", " + b
  {
  }

  lemma PlainAlone(n: nat)
    requires 1 <= n <= 9_223_372_036
    ensures MaxAge(Text.Split("max-age=" + Text.Decimal(n), ',')) == n * 1_000_000_000
  {
    PlainText(n);
    var alone := Directive("", "max-age=" + Text.Decimal(n), "");
    assert alone.Padded() == alone.text && Header([alone]) == alone.text;
    HeaderSeconds([alone], 0, n);
  }

  lemma PlainAfter(other: string, text: string, n: nat)
    requires Text.Bare(other) && ',' !in other && !("max-age=" <= other) && 1 <= n <= 9_223_372_036
    requires text == "max-age=" + Text.Decimal(n)
    ensures MaxAge(Text.Split(other + "," + (" " + text), ',')) == n * 1_000_000_000
  {
    PlainText(n);
    var first, second := Directive("", other, ""), Directive(" ", text, "");
    HeaderOfTwo(first, second);
    assert first.Padded() == other && second.Padded() == " " + text;
    assert first.Valid() && second.Valid() && FirstMaxAge([first, second], 1);
    HeaderSeconds([first, second], 1, n);
  }

  lemma PlainText(n: nat)
    ensures Text.Bare("max-age=" + Text.Decimal(n)) && ',' !in "max-age=" + Text.Decimal(n)
  {
    var digits := Text.Decimal(n);
    assert digits[|digits| - 1] in digits && forall c | c in digits :: c != ',' && !Text.IsSpace(c);
    var text := "max-age=" + digits;
    assert text[0] == 'm' && text[|text| - 1] == digits[|digits| - 1];
  }

  lemma HeaderOfTwo(first: Directive, second: Directive)
    ensures Header([first, second]) == first.Padded() + "," + second.Padded()
  {
    var parts := Parts([first, second]);
    assert parts[1..] == [second.Padded()];
    assert Text.Join(parts, ',') == parts[0] + [','] + Text.Join(parts[1..], ',');
  }

  const TWO55: int := 0x80_0000_0000_0000

  /** A positive int64 of seconds wraps to lifetime 0, the sign for "use the default", exactly on multiples of 2^55. */
  lemma LifetimeVanishes(argument: string)
    ensures Lifetime(argument) == 0 <==>
            match Text.Atoi(argument) { case None => true case Some(s) => s <= 0 || s % TWO55 == 0 }
  {
    var parsed := Text.Atoi(argument);
    if parsed.Some? && parsed.value > 0 {
      var s := parsed.value;
      ProductVanishes(s);
    }
  }

  /** 10^9 has exactly nine factors of two; its odd part has an inverse modulo 2^55. */
  lemma ProductVanishes(s: int)
    ensures (s * SECOND) % Int64.TWO64 == 0 <==> s % TWO55 == 0
  {
    var odd := 1_953_125;
    assert SECOND == 512 * odd && Int64.TWO64 == 512 * TWO55;
    if s % TWO55 == 0 {
      var q := s / TWO55;
      assert s * SECOND == Int64.TWO64 * (q * odd);
      Int64.MultipleMod(q * odd);
    }
    if (s * SECOND) % Int64.TWO64 == 0 {
      var q := (s * SECOND) / Int64.TWO64;
      assert s * SECOND == Int64.TWO64 * q;
      assert s * odd == TWO55 * q;
      var inverse, k := 20211507185753197, 1095668;
      assert odd * inverse == 1 + TWO55 * k;
      assert s == s * (odd * inverse) - s * (TWO55 * k);
      assert s * (odd * inverse) == (s * odd) * inverse;
      assert s == TWO55 * (q * inverse - s * k) by {
        assert (TWO55 * q) * inverse == TWO55 * (q * inverse);
        assert s * (TWO55 * k) == TWO55 * (s * k);
      }
    }
  }
}
