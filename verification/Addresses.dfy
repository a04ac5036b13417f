// IPv4 addresses and CIDR prefixes as words, with the printed forms that the
// program uses as map keys and compares as strings (net.IP.String and
// net.IPNet.String). Parsing text is not modelled: a prefix starts here as an
// address word and a prefix length.
module Addresses {
  import Arithmetic
  import Sorting

  type Word = w: nat | w < 0x1_0000_0000

  // A prefix as net.ParseCIDR returns it: host bits already masked off.
  datatype RawPrefix = Prefix(net: Word, len: nat) {
    function Block(): (r: nat)
      requires len <= 32
      ensures r > 0
    {
      Arithmetic.Pow2(32 - len)
    }

    predicate Valid() {
      len <= 32 && net % Block() == 0
    }

    // net.IPNet.Contains: the leading len bits agree.
    predicate Contains(a: Word)
      requires Valid()
    {
      a / Block() == net / Block()
    }

    function Text(): string {
      Dotted(net) + "/" + Decimal(len)
    }
  }

  type Prefix = p: RawPrefix | p.Valid() witness Prefix(0, 0)

  // net.ParseCIDR and ParseCIDROrHost mask the host bits of what was written.
  function Masked(a: Word, len: nat): Prefix
    requires len <= 32
  {
    var block := Arithmetic.Pow2(32 - len);
    Arithmetic.DropRemainder(a, block);
    Prefix(a - a % block, len)
  }

  lemma MaskedContains(a: Word, len: nat)
    requires len <= 32
    ensures Masked(a, len).len == len && Masked(a, len).Contains(a)
  {
    Arithmetic.DropRemainder(a, Arithmetic.Pow2(32 - len));
  }

  // The addresses of a prefix are the block of 2^(32 - len) that starts at net.
  lemma PrefixIsRange(p: Prefix, a: Word)
    ensures p.Contains(a) <==> p.net <= a < p.net + Arithmetic.Pow2(32 - p.len)
  {
    var block := p.Block();
    var q := p.net / block;
    assert p.net == q * block && a == a / block * block + a % block;
    Arithmetic.DivideProduct(q, 0, block);
    if p.Contains(a) {
    } else if p.net <= a < p.net + block {
      Arithmetic.DivideProduct(q, a - p.net, block);
    }
  }

  lemma NetContained(p: Prefix)
    ensures p.Contains(p.net)
  {
  }

  // ----- printed forms -----

  function Digit(d: nat): char
    requires d < 10
  {
    "0123456789"[d]
  }

  function Decimal(n: nat): (s: string)
    ensures s != []
    ensures forall i :: 0 <= i < |s| ==> '0' <= s[i] <= '9'
  {
    if n < 10 then [Digit(n)] else Decimal(n / 10) + [Digit(n % 10)]
  }

  lemma {:induction false} DecimalInjective(a: nat, b: nat)
    requires Decimal(a) == Decimal(b)
    ensures a == b
  {
    var s, t := Decimal(a), Decimal(b);
    assert s[|s| - 1] == Digit(a % 10) && t[|t| - 1] == Digit(b % 10);
    assert a % 10 == b % 10;
    if a >= 10 && b >= 10 {
      assert Decimal(a / 10) == s[..|s| - 1] == t[..|t| - 1] == Decimal(b / 10);
      DecimalInjective(a / 10, b / 10);
    }
  }

  function Octet(w: Word, i: nat): (o: nat)
    requires i < 4
    ensures o < 256
  {
    if i == 0 then w / 0x100_0000
    else if i == 1 then w / 0x1_0000 % 256
    else if i == 2 then w / 0x100 % 256
    else w % 256
  }

  // net.IP.String for IPv4.
  function Dotted(w: Word): string {
    Decimal(Octet(w, 0)) + "." + (Decimal(Octet(w, 1)) + "." + (Decimal(Octet(w, 2)) + "." + Decimal(Octet(w, 3))))
  }

  // Reading the digits from the left gives the number back ...
  function ReadDecimal(s: string): int {
    if s == [] then 0 else ReadDecimal(s[..|s| - 1]) * 10 + (s[|s| - 1] as int - '0' as int)
  }

  lemma {:induction false} DecimalReadsBack(n: nat)
    ensures ReadDecimal(Decimal(n)) == n
  {
    var s := Decimal(n);
    assert s[|s| - 1] == Digit(n % 10);
    if n < 10 {
      assert ReadDecimal(s[..|s| - 1]) == 0;
    } else {
      assert s[..|s| - 1] == Decimal(n / 10);
      DecimalReadsBack(n / 10);
    }
  }

  // ... and an address is printed with its high byte first.
  lemma DottedForm(a: nat, b: nat, c: nat, d: nat, w: Word)
    requires a < 256 && b < 256 && c < 256 && d < 256 && w == a * 0x100_0000 + b * 0x1_0000 + c * 0x100 + d
    ensures Dotted(w) == Fields(Decimal(a), Decimal(b), Decimal(c), Decimal(d))
  {
    OctetsOf(a, b, c, d, w);
    var (a', b', c', d') := (Octet(w, 0), Octet(w, 1), Octet(w, 2), Octet(w, 3));
    assert Dotted(w) == Fields(Decimal(a'), Decimal(b'), Decimal(c'), Decimal(d'));
  }

  function Fields(a: string, b: string, c: string, d: string): string {
    a + "." + (b + "." + (c + "." + d))
  }

  lemma OctetsOf(a: nat, b: nat, c: nat, d: nat, w: Word)
    requires a < 256 && b < 256 && c < 256 && d < 256 && w == a * 0x100_0000 + b * 0x1_0000 + c * 0x100 + d
    ensures Octet(w, 0) == a && Octet(w, 1) == b && Octet(w, 2) == c && Octet(w, 3) == d
  {
    assert w / 0x1_0000 == a * 0x100 + b;
    assert w / 0x100 == a * 0x1_0000 + b * 0x100 + c;
  }

  // A field without the separator ends at the first separator.
  lemma FieldInjective(a: string, b: string, x: string, y: string, sep: char)
    requires sep !in a && sep !in x
    requires a + [sep] + b == x + [sep] + y
    ensures a == x && b == y
  {
    var s, t := a + [sep] + b, x + [sep] + y;
    assert s[|a|] == sep && t[|x|] == sep;
    assert forall i :: 0 <= i < |a| ==> s[i] != sep;
    assert forall i :: 0 <= i < |x| ==> t[i] != sep;
    assert a == s[..|a|] == x && b == s[|a| + 1..] == y;
  }

  lemma DottedInjective(v: Word, w: Word)
    requires Dotted(v) == Dotted(w)
    ensures v == w
  {
    var v3, w3 := Decimal(Octet(v, 3)), Decimal(Octet(w, 3));
    var v2, w2 := Decimal(Octet(v, 2)) + "." + v3, Decimal(Octet(w, 2)) + "." + w3;
    var v1, w1 := Decimal(Octet(v, 1)) + "." + v2, Decimal(Octet(w, 1)) + "." + w2;
    FieldInjective(Decimal(Octet(v, 0)), v1, Decimal(Octet(w, 0)), w1, '.');
    FieldInjective(Decimal(Octet(v, 1)), v2, Decimal(Octet(w, 1)), w2, '.');
    FieldInjective(Decimal(Octet(v, 2)), v3, Decimal(Octet(w, 2)), w3, '.');
    DecimalInjective(Octet(v, 0), Octet(w, 0));
    DecimalInjective(Octet(v, 1), Octet(w, 1));
    DecimalInjective(Octet(v, 2), Octet(w, 2));
    DecimalInjective(Octet(v, 3), Octet(w, 3));
    OctetsDetermine(v, w);
  }

  lemma OctetsDetermine(v: Word, w: Word)
    requires forall i :: 0 <= i < 4 ==> Octet(v, i) == Octet(w, i)
    ensures v == w
  {
    OctetsSum(v);
    OctetsSum(w);
    assert Octet(v, 0) == Octet(w, 0) && Octet(v, 1) == Octet(w, 1);
    assert Octet(v, 2) == Octet(w, 2) && Octet(v, 3) == Octet(w, 3);
  }

  lemma OctetsSum(w: Word)
    ensures w == Octet(w, 0) * 0x100_0000 + Octet(w, 1) * 0x1_0000 + Octet(w, 2) * 0x100 + Octet(w, 3)
  {
    var q2 := w / 0x100;
    var q1 := q2 / 0x100;
    assert w == q2 * 0x100 + w % 0x100;
    assert q2 == q1 * 0x100 + q2 % 0x100;
    assert q1 == w / 0x1_0000;
    assert w / 0x100_0000 == q1 / 0x100;
  }

  lemma DottedHasNoSlash(w: Word)
    ensures '/' !in Dotted(w)
  {
  }

  // Two prefixes that print alike are the same prefix.
  lemma TextInjective(p: RawPrefix, q: RawPrefix)
    requires p.Text() == q.Text()
    ensures p == q
  {
    DottedHasNoSlash(p.net);
    DottedHasNoSlash(q.net);
    FieldInjective(Dotted(p.net), Decimal(p.len), Dotted(q.net), Decimal(q.len), '/');
    DottedInjective(p.net, q.net);
    DecimalInjective(p.len, q.len);
  }

  // Go's string order, byte by byte; every string compared here is ASCII.
  predicate TextLe(a: string, b: string) {
    a == [] || (b != [] && (a[0] < b[0] || (a[0] == b[0] && TextLe(a[1..], b[1..]))))
  }

  lemma {:induction false} TextLeTotal(a: string, b: string)
    ensures TextLe(a, b) || TextLe(b, a)
    ensures TextLe(a, b) && TextLe(b, a) ==> a == b
  {
    if a != [] && b != [] {
      TextLeTotal(a[1..], b[1..]);
      assert a == [a[0]] + a[1..] && b == [b[0]] + b[1..];
    }
  }

  lemma {:induction false} TextLeTransitive(a: string, b: string, c: string)
    requires TextLe(a, b) && TextLe(b, c)
    ensures TextLe(a, c)
  {
    if a != [] && a[0] == b[0] && b[0] == c[0] {
      TextLeTransitive(a[1..], b[1..], c[1..]);
    }
  }

  lemma {:induction false} TextOrder(a: string, b: string)
    ensures TextLe(a, b) <==>
      a <= b || exists i :: 0 <= i < |a| && i < |b| && a[..i] == b[..i] && a[i] < b[i]
  {
    if a != [] && b != [] && a[0] == b[0] {
      TextOrder(a[1..], b[1..]);
      assert a == [a[0]] + a[1..] && b == [b[0]] + b[1..];
      if i :| 0 <= i < |a| && i < |b| && a[..i] == b[..i] && a[i] < b[i] {
        assert a[1..][..i - 1] == a[..i][1..] == b[..i][1..] == b[1..][..i - 1];
        assert a[1..][i - 1] < b[1..][i - 1];
      }
      if i :| 0 <= i < |a| - 1 && i < |b| - 1 && a[1..][..i] == b[1..][..i] && a[1..][i] < b[1..][i] {
        assert a[..i + 1] == [a[0]] + a[1..][..i] && b[..i + 1] == [b[0]] + b[1..][..i];
        assert a[i + 1] < b[i + 1];
      }
    } else if a != [] && b != [] {
      forall i | 0 < i <= |a| && i <= |b| ensures a[..i] != b[..i] {
        assert a[..i][0] != b[..i][0];
      }
      assert a[..0] == b[..0];
    }
  }

  // Prefixes in the order of their printed forms.
  predicate PrefixLe(p: RawPrefix, q: RawPrefix) {
    TextLe(p.Text(), q.Text())
  }

  lemma PrefixLeTotalOrder()
    ensures Sorting.TotalOrder(PrefixLe)
  {
    forall p, q ensures PrefixLe(p, q) || PrefixLe(q, p) {
      TextLeTotal(p.Text(), q.Text());
    }
    forall p, q | PrefixLe(p, q) && PrefixLe(q, p) ensures p == q {
      TextLeTotal(p.Text(), q.Text());
      TextInjective(p, q);
    }
    forall p, q, r | PrefixLe(p, q) && PrefixLe(q, r) ensures PrefixLe(p, r) {
      TextLeTransitive(p.Text(), q.Text(), r.Text());
    }
  }
}
