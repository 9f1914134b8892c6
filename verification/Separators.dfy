/** When names joined with a separator stay apart, and for which separators the column prefixes do. */
module Separators {
  import opened Naming

  /** Neither of two different names, followed by the separator, begins the other followed by it. */
  ghost predicate Apart(p: string, p': string, sep: string) {
    p + sep <= p' + sep || p' + sep <= p + sep ==> p == p'
  }

  ghost predicate AllApart(keys: seq<string>, sep: string) {
    forall i, j :: 0 <= i < |keys| && 0 <= j < |keys| ==> Apart(keys[i], keys[j], sep)
  }

  /** Where both continuations repeat the separator, the shorter name followed by it begins the longer one so. */
  lemma ShorterGoesOn(p: string, p': string, sep: string, h: string, h': string)
    requires sep <= h + sep && sep <= h' + sep && p + h == p' + h' && |p| <= |p'|
    ensures p + sep <= p' + sep
  {
    var w := p'[|p|..];
    assert (p + h)[..|p|] == p && (p' + h')[..|p|] == p'[..|p|];
    assert p' == p + w;
    assert h == (p + h)[|p|..] && w + h' == (p' + h')[|p|..];
    RepeatsBetween(sep, w, h, h');
    assert p' + sep == p + (w + sep);
  }

  lemma RepeatsBetween(sep: string, w: string, h: string, h': string)
    requires sep <= h + sep && sep <= h' + sep && h == w + h'
    ensures sep <= w + sep
  {
    var all := h + sep;
    assert all == w + (h' + sep);
    assert sep == all[..|sep|] && w + sep == all[..|w + sep|];
  }

  /** Names apart are determined by what they are joined to. */
  lemma JoinedApart(p: string, p': string, sep: string, h: string, h': string)
    requires Apart(p, p', sep) && sep <= h + sep && sep <= h' + sep && p + h == p' + h'
    ensures p == p' && h == h'
  {
    if |p| <= |p'| { ShorterGoesOn(p, p', sep, h, h'); } else { ShorterGoesOn(p', p, sep, h', h); }
    assert (p + h)[|p|..] == h && (p' + h')[|p'|..] == h';
  }

  /** Two different names are apart exactly when no two joined names made from them are the same. */
  lemma ApartIff(p: string, p': string, sep: string)
    requires p != p'
    ensures Apart(p, p', sep) <==> forall s, t: string :: p + sep + s != p' + sep + t
  {
    if Apart(p, p', sep) {
      forall s, t: string ensures p + sep + s != p' + sep + t {
        if p + sep + s == p' + sep + t {
          assert p + sep + s == p + (sep + s) && p' + sep + t == p' + (sep + t);
          JoinedApart(p, p', sep, sep + s, sep + t);
        }
      }
    } else if p + sep <= p' + sep {
      assert p + sep + (p' + sep)[|p + sep|..] == p' + sep + "";
    } else {
      assert p' + sep + (p + sep)[|p' + sep|..] == p + sep + "";
    }
  }

  // ----- decimal numbers -----

  function Pow10(k: nat): (r: nat)
    ensures r > 0
  {
    if k == 0 then 1 else 10 * Pow10(k - 1)
  }

  ghost predicate Digits(w: string) { w != "" && forall k :: 0 <= k < |w| ==> w[k] in DIGITS }

  lemma DigitOf(c: char)
    requires c in DIGITS
    ensures DigitValue(c) < 10 && DIGITS[DigitValue(c)] == c && (c != '0' ==> DigitValue(c) > 0)
  {
  }

  lemma {:induction false} Pow10Adds(j: nat, k: nat)
    ensures Pow10(j + k) == Pow10(j) * Pow10(k)
  {
    if j > 0 { Pow10Adds(j - 1, k); }
  }

  lemma {:induction false} Pow10Rises(j: nat, k: nat)
    requires j <= k
    ensures Pow10(j) <= Pow10(k)
    decreases k - j
  {
    if j < k { Pow10Rises(j, k - 1); }
  }

  lemma {:induction false} ParseBoth(x: string, w: string)
    ensures ParseDecimal(x + w) == ParseDecimal(x) * Pow10(|w|) + ParseDecimal(w)
  {
    if w == "" {
      assert x + w == x;
    } else {
      var n := |w| - 1;
      ParseBoth(x, w[..n]);
      assert (x + w)[..|x + w| - 1] == x + w[..n];
      TenTimes(ParseDecimal(x), Pow10(n), ParseDecimal(w[..n]));
    }
  }

  lemma TenTimes(a: nat, b: nat, c: nat)
    ensures 10 * (a * b + c) == a * (10 * b) + 10 * c
  {
  }

  /** A number without a leading zero has as many digits as its size asks for. */
  lemma {:induction false} ParseAtLeast(x: string)
    requires Digits(x) && x[0] != '0'
    ensures ParseDecimal(x) >= Pow10(|x| - 1)
  {
    if |x| == 1 {
      DigitOf(x[0]);
      assert x[..0] == [];
    } else {
      var y := x[..|x| - 1];
      assert y[0] == x[0];
      ParseAtLeast(y);
    }
  }

  /** And printing it gives it back. */
  lemma {:induction false} DecimalOfParse(x: string)
    requires Digits(x) && x[0] != '0'
    ensures Decimal(ParseDecimal(x)) == x
  {
    if |x| == 1 {
      DecimalOfDigit(x);
    } else {
      var n := |x| - 1;
      var y := x[..n];
      assert Digits(y) && y[0] == x[0];
      DecimalOfParse(y);
      ParseAtLeast(y);
      GoesOnPrinted(x, n, y);
    }
  }

  lemma {:induction false} DecimalOfDigit(x: string)
    requires |x| == 1 && x[0] in DIGITS
    ensures Decimal(ParseDecimal(x)) == x
  {
    LastApart(x, 0, []);
    DigitOf(x[0]);
  }

  lemma {:induction false} GoesOnPrinted(x: string, n: nat, y: string)
    requires |x| == n + 1 && y == x[..n] && x[n] in DIGITS && ParseDecimal(y) > 0 && Decimal(ParseDecimal(y)) == y
    ensures Decimal(ParseDecimal(x)) == x
  {
    DigitOf(x[n]);
    LastApart(x, n, y);
    DecimalSnoc(ParseDecimal(y), DigitValue(x[n]));
  }

  lemma {:induction false} LastApart(x: string, n: nat, y: string)
    requires |x| == n + 1 && y == x[..n]
    ensures x == y + [x[n]] && ParseDecimal(x) == 10 * ParseDecimal(y) + DigitValue(x[n])
  {
  }

  lemma DecimalSnoc(n: nat, d: nat)
    requires n > 0 && d < 10
    ensures Decimal(10 * n + d) == Decimal(n) + [DIGITS[d]]
  {
    assert (10 * n + d) / 10 == n && (10 * n + d) % 10 == d;
  }

  lemma {:induction false} DecimalDigits(n: nat)
    ensures Digits(Decimal(n)) && (n > 0 ==> Decimal(n)[0] != '0') && (|Decimal(n)| > 1 ==> n >= 10)
  {
    if n >= 10 { DecimalDigits(n / 10); }
  }

  lemma {:induction false} PowerOfTenLength(k: nat)
    ensures |Decimal(Pow10(k))| == k + 1
  {
    if k > 0 { PowerOfTenLength(k - 1); }
  }

  // ----- the column prefixes -----

  function Prefixes(n: nat): (r: seq<string>)
    ensures |r| == n && forall b :: 0 <= b < n ==> r[b] == ColPrefix(b, n)
  {
    seq(n, b requires 0 <= b < n => ColPrefix(b, n))
  }

  /** Every printed index has at least this many digits. */
  function Places(n: nat): (w: nat)
    ensures w >= 1 && w >= Width(n)
  {
    if Width(n) == 0 then 1 else Width(n)
  }

  lemma {:induction false} PaddedDigits(s: string, width: nat)
    requires Digits(s)
    ensures var p := ZeroPad(s, width); Digits(p) && |p| >= |s| && |p| >= width && (|p| > width ==> p == s)
    decreases width - |s|
  {
    if |s| < width {
      assert DIGITS[0] == '0';
      PaddedDigits("0" + s, width);
    }
  }

  /** What is behind "tbl": digits that read as the index, without a leading zero where they are more than the width. */
  lemma {:induction false} PrintedIndex(b: nat, n: nat, x: string)
    requires x == ZeroPad(Decimal(b), Width(n))
    ensures ColPrefix(b, n) == "tbl" + x && Digits(x) && |x| >= Places(n) && ParseDecimal(x) == b
    ensures |x| > Places(n) ==> x[0] != '0'
  {
    DecimalDigits(b);
    PaddedDigits(Decimal(b), Width(n));
    ParseZeroPad(Decimal(b), Width(n));
    ParseDecimalRoundTrip(b);
  }

  lemma ColPrefixStart(b: nat, n: nat)
    ensures ColPrefix(b, n) != "" && ColPrefix(b, n)[0] == 't'
  {
  }

  /** w leads from one column prefix to another, and the separator repeats with it. */
  ghost predicate Leads(w: string, sep: string) { Digits(w) && sep <= w + sep }

  /** The least index that w leads to, from an index of so many places. */
  function LeastLed(places: nat, w: string): nat
    requires places >= 1
  {
    Pow10(places - 1 + |w|) + ParseDecimal(w)
  }

  /** Two prefixes that are not apart differ by such a w, and the index of the longer one is no less than that. */
  lemma ClashLeads(i: nat, j: nat, n: nat, sep: string) returns (w: string)
    requires i != j && ColPrefix(i, n) + sep <= ColPrefix(j, n) + sep
    ensures Leads(w, sep) && j >= LeastLed(Places(n), w)
  {
    var x, y := ZeroPad(Decimal(i), Width(n)), ZeroPad(Decimal(j), Width(n));
    PrintedIndex(i, n, x);
    PrintedIndex(j, n, y);
    w := ClashOfPrinted(i, x, j, y, Places(n), sep);
  }

  lemma ClashOfPrinted(i: nat, x: string, j: nat, y: string, places: nat, sep: string) returns (w: string)
    requires i != j && ("tbl" + x) + sep <= ("tbl" + y) + sep && places >= 1
    requires Digits(x) && |x| >= places && ParseDecimal(x) == i
    requires Digits(y) && (|y| > places ==> y[0] != '0') && ParseDecimal(y) == j
    ensures Leads(w, sep) && j >= LeastLed(places, w)
  {
    w := Extension(x, y, sep);
    NumberOfExtension(x, w, y, places);
  }

  lemma Extension(x: string, y: string, sep: string) returns (w: string)
    requires ("tbl" + x) + sep <= ("tbl" + y) + sep && x != y && Digits(y)
    ensures y == x + w && Leads(w, sep)
  {
    var p, q := "tbl" + x, "tbl" + y;
    assert |x| <= |y|;
    assert (p + sep)[3..] == x + sep && (q + sep)[3..] == y + sep;
    assert x + sep == (y + sep)[..|x + sep|];
    assert x == (x + sep)[..|x|] && y[..|x|] == (y + sep)[..|x|];
    w := y[|x|..];
    assert y == x + w && y + sep == x + (w + sep);
    assert sep == (x + sep)[|x|..] && (w + sep)[..|sep|] == (y + sep)[|x|..|x| + |sep|];
    assert forall k :: 0 <= k < |w| ==> w[k] == y[|x| + k];
  }

  lemma {:induction false} NumberOfExtension(x: string, w: string, y: string, places: nat)
    requires y == x + w && Digits(x) && Digits(w) && |x| >= places >= 1 && (|y| > places ==> y[0] != '0')
    ensures ParseDecimal(y) >= LeastLed(places, w)
  {
    assert x[0] == y[0];
    ParseBoth(x, w);
    ParseAtLeast(x);
    Pow10Rises(places - 1, |x| - 1);
    LeastLedIs(places - 1, w);
    Scaled(ParseDecimal(x), Pow10(places - 1), Pow10(|w|));
  }

  lemma {:induction false} LeastLedIs(m: nat, w: string)
    ensures LeastLed(m + 1, w) == Pow10(m) * Pow10(|w|) + ParseDecimal(w)
  {
    Pow10Adds(m, |w|);
  }

  lemma Scaled(a: nat, b: nat, c: nat)
    requires a >= b
    ensures a * c >= b * c
  {
  }

  lemma LedDecimal(i: nat, w: string)
    requires i > 0 && Digits(w)
    ensures Decimal(i * Pow10(|w|) + ParseDecimal(w)) == Decimal(i) + w
  {
    DecimalDigits(i);
    ParseDecimalRoundTrip(i);
    ParseBoth(Decimal(i), w);
    DecimalOfParse(Decimal(i) + w);
  }

  /** The first index of m + 1 places, and the one that goes on from it with w. */
  lemma {:induction false} FirstLed(m: nat, w: string, i: nat, j: nat)
    requires Digits(w) && i == Pow10(m) && j == LeastLed(m + 1, w)
    ensures i < j && |Decimal(i)| == m + 1 && Decimal(j) == Decimal(i) + w
  {
    PowerOfTenLength(m);
    LeastLedIs(m, w);
    LedDecimal(i, w);
    AtLeastTen(|w|);
    LedIsLarger(i, Pow10(|w|), ParseDecimal(w), j);
  }

  lemma {:induction false} AtLeastTen(k: nat)
    requires k > 0
    ensures Pow10(k) >= 10
  {
  }

  lemma LedIsLarger(i: nat, b: nat, c: nat, j: nat)
    requires i > 0 && b >= 10 && j == i * b + c
    ensures i < j
  {
    Scaled(b, 10, i);
  }

  lemma {:induction false} PrintedAsIs(b: nat, n: nat)
    requires |Decimal(b)| >= Width(n)
    ensures ColPrefix(b, n) == "tbl" + Decimal(b)
  {
  }

  /** With enough inputs there are two prefixes of which w leads from one to the other. */
  lemma LeadsToClash(n: nat, sep: string, w: string)
    requires Leads(w, sep) && n > LeastLed(Places(n), w)
    ensures !AllApart(Prefixes(n), sep)
  {
    var m := Places(n) - 1;
    var i, j := Pow10(m), LeastLed(Places(n), w);
    FirstLed(m, w, i, j);
    LedClash(i, j, n, sep, w);
    NotAllApart(Prefixes(n), i, j, sep);
  }

  lemma {:induction false} LedClash(i: nat, j: nat, n: nat, sep: string, w: string)
    requires Leads(w, sep) && |Decimal(i)| == Places(n) && Decimal(j) == Decimal(i) + w
    ensures !Apart(ColPrefix(i, n), ColPrefix(j, n), sep)
  {
    PrintedAsIs(i, n);
    PrintedAsIs(j, n);
    NotApart(Decimal(i), w, sep, ColPrefix(i, n), ColPrefix(j, n));
  }

  lemma NotAllApart(keys: seq<string>, i: nat, j: nat, sep: string)
    requires i < |keys| && j < |keys| && !Apart(keys[i], keys[j], sep)
    ensures !AllApart(keys, sep)
  {
  }

  lemma NotApart(x: string, w: string, sep: string, p: string, q: string)
    requires Leads(w, sep) && p == "tbl" + x && q == "tbl" + (x + w)
    ensures !Apart(p, q, sep)
  {
    assert q == p + w;
    assert q + sep == p + (w + sep);
    assert p + sep <= q + sep;
  }

  /**
   * The column prefixes of n inputs stay apart exactly when no string of digits
   * that the separator repeats with is small enough: none at all for a separator
   * with a character that is no digit.
   */
  lemma PrefixesApartIff(n: nat, sep: string)
    ensures AllApart(Prefixes(n), sep) <==> forall w :: Leads(w, sep) ==> n <= LeastLed(Places(n), w)
  {
    if !AllApart(Prefixes(n), sep) {
      var i, j :| 0 <= i < n && 0 <= j < n && !Apart(Prefixes(n)[i], Prefixes(n)[j], sep);
      var w;
      if ColPrefix(i, n) + sep <= ColPrefix(j, n) + sep {
        w := ClashLeads(i, j, n, sep);
      } else {
        w := ClashLeads(j, i, n, sep);
      }
    } else {
      forall w | Leads(w, sep) ensures n <= LeastLed(Places(n), w) {
        if n > LeastLed(Places(n), w) { LeadsToClash(n, sep, w); }
      }
    }
  }

  /** A separator that repeats with digits consists of digits. */
  lemma {:induction false} LeadingIsDigits(w: string, sep: string, k: nat)
    requires Leads(w, sep) && k < |sep|
    ensures sep[k] in DIGITS
    decreases k
  {
    assert sep[k] == (w + sep)[k];
    if k >= |w| { LeadingIsDigits(w, sep, k - |w|); }
  }

  /** Any separator with a character that is no digit keeps the prefixes apart, however many inputs there are. */
  lemma NonDigitKeepsPrefixesApart(n: nat, sep: string, k: nat)
    requires k < |sep| && sep[k] !in DIGITS
    ensures AllApart(Prefixes(n), sep)
  {
    forall w ensures !Leads(w, sep) {
      if Leads(w, sep) {
        LeadingIsDigits(w, sep, k);
        assert false;
      }
    }
    PrefixesApartIff(n, sep);
  }

  /** A single digit keeps them apart up to a number of inputs: the width decides, which counts in hexadecimal. */
  lemma DigitKeepsPrefixesApartIff(n: nat, d: nat)
    requires d < 10
    ensures AllApart(Prefixes(n), [DIGITS[d]]) <==> n <= Pow10(Places(n)) + d
  {
    var sep := [DIGITS[d]];
    PrefixesApartIff(n, sep);
    LeadsItself(sep, d, Places(n));
    if n <= Pow10(Places(n)) + d {
      forall w | Leads(w, sep) ensures n <= LeastLed(Places(n), w) { LongerLeadsFurther(w, d, Places(n), sep); }
    }
  }

  lemma {:induction false} LeadsItself(sep: string, d: nat, places: nat)
    requires d < 10 && sep == [DIGITS[d]] && places >= 1
    ensures Leads(sep, sep) && LeastLed(places, sep) == Pow10(places) + d
  {
    LastApart(sep, 0, []);
    ValueOfDigit(d);
    assert (sep + sep)[..1] == sep;
  }

  lemma ValueOfDigit(d: nat)
    requires d < 10
    ensures DIGITS[d] in DIGITS && DigitValue(DIGITS[d]) == d
  {
  }

  lemma {:induction false} LongerLeadsFurther(w: string, d: nat, places: nat, sep: string)
    requires d < 10 && sep == [DIGITS[d]] && Leads(w, sep) && places >= 1
    ensures LeastLed(places, w) >= Pow10(places) + d
  {
    assert w[0] == (w + sep)[0] == sep[0];
    if |w| == 1 {
      assert w == sep;
      LeadsItself(sep, d, places);
    } else {
      Pow10Rises(places + 1, places - 1 + |w|);
      Pow10Rises(1, places);
    }
  }

  /** The least clash: 11 inputs and separator 0, where the width is one digit. */
  lemma DigitSeparatorClashes()
    ensures ColPrefix(1, 11) + "0" + "0x" == ColPrefix(10, 11) + "0" + "x"
    ensures !AllApart(Prefixes(11), "0") && forall n: nat :: n <= 10 ==> AllApart(Prefixes(n), "0")
  {
    assert Width(11) == 1;
    assert Decimal(1) == "1" && Decimal(10) == "10";
    assert ColPrefix(1, 11) == "tbl1" && ColPrefix(10, 11) == "tbl10";
    assert Pow10(1) == 10;
    DigitKeepsPrefixesApartIff(11, 0);
    forall n: nat | n <= 10 ensures AllApart(Prefixes(n), "0") {
      Pow10Rises(1, Places(n));
      DigitKeepsPrefixesApartIff(n, 0);
    }
  }
}
