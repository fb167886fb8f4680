/** The server's in-memory product catalog and `GET /api/products/:id`
    (server.ts). The path segment is converted with JavaScript's
    `parseInt`, modelled here as ECMAScript defines it for an absent radix. */
module Catalog {
  import opened Types

  // ---------------------------------------------------------------------
  // parseInt(segment)
  // ---------------------------------------------------------------------

  /** The characters `parseInt` skips before the number: white space and
      line terminators. */
  predicate IsWhiteSpace(c: char)
  {
    || c == '\t' || c == '\n' || c == '\U{000B}' || c == '\U{000C}' || c == '\r'
    || c == ' ' || c == '\U{00A0}' || c == '\U{1680}'
    || ('\U{2000}' <= c <= '\U{200A}')
    || c == '\U{2028}' || c == '\U{2029}' || c == '\U{202F}' || c == '\U{205F}'
    || c == '\U{3000}' || c == '\U{FEFF}'
  }

  function TrimStart(s: string): (r: string)
    ensures |r| <= |s| && r == s[|s| - |r|..]
    ensures r == [] || !IsWhiteSpace(r[0])
  {
    if |s| > 0 && IsWhiteSpace(s[0]) then TrimStart(s[1..]) else s
  }

  /** The value of `c` as a digit in base `radix` (10 or 16), or -1. */
  function DigitValue(c: char, radix: int): int
  {
    var v :=
      if '0' <= c <= '9' then c as int - '0' as int
      else if 'a' <= c <= 'z' then c as int - 'a' as int + 10
      else if 'A' <= c <= 'Z' then c as int - 'A' as int + 10
      else -1;
    if v < radix then v else -1
  }

  predicate IsDigit(c: char, radix: int)
  {
    0 <= DigitValue(c, radix)
  }

  /** The longest prefix of `s` made of base-`radix` digits. */
  function DigitPrefix(s: string, radix: int): (r: string)
    ensures |r| <= |s| && r == s[..|r|]
    ensures forall i :: 0 <= i < |r| ==> IsDigit(r[i], radix)
    ensures |r| < |s| ==> !IsDigit(s[|r|], radix)
  {
    if |s| > 0 && IsDigit(s[0], radix) then [s[0]] + DigitPrefix(s[1..], radix) else []
  }

  /** The number the digit string `d` denotes in base `radix`; never
      negative when every character is a digit. */
  function DigitsValue(d: string, radix: int): (r: int)
    ensures (forall i :: 0 <= i < |d| ==> IsDigit(d[i], radix)) ==> r >= 0
  {
    if d == [] then 0
    else
      var init := d[..|d| - 1];
      assert forall i :: 0 <= i < |init| ==> init[i] == d[i];
      DigitsValue(init, radix) * radix + DigitValue(d[|d| - 1], radix)
  }

  /** `parseInt(s)`; `None` stands for NaN. Leading white space is skipped,
      then one sign, then the digits. A segment of only white space is NaN,
      and only a minus sign gives a negative number. */
  function ParseInt(s: string): (r: Option<int>)
    ensures TrimStart(s) == [] ==> r.None?
    ensures r.Some? && r.value < 0 ==> TrimStart(s)[0] == '-'
  {
    var t := TrimStart(s);
    if |t| > 0 && t[0] == '-' then
      match ParseUnsigned(t[1..])
      case Some(v) => Some(-v)
      case None => None
    else if |t| > 0 && t[0] == '+' then ParseUnsigned(t[1..])
    else ParseUnsigned(t)
  }

  /** After the sign: a "0x" or "0X" prefix selects base 16, otherwise base
      10. The result is never negative, and a numeral that starts with a
      non-zero decimal digit always gives a number. */
  function ParseUnsigned(u: string): (r: Option<int>)
    ensures r.Some? ==> r.value >= 0
    ensures |u| > 0 && '1' <= u[0] <= '9' ==> r.Some?
  {
    if |u| >= 2 && u[0] == '0' && (u[1] == 'x' || u[1] == 'X') then ParseDigits(u[2..], 16)
    else ParseDigits(u, 10)
  }

  /** The value of the longest digit prefix: NaN exactly when `s` does not
      start with a digit, otherwise a number that is never negative. */
  function ParseDigits(s: string, radix: int): (r: Option<int>)
    ensures r.None? <==> s == [] || !IsDigit(s[0], radix)
    ensures r.Some? ==> r.value >= 0
  {
    var d := DigitPrefix(s, radix);
    if d == [] then None else Some(DigitsValue(d, radix))
  }

  /** The decimal numeral of `n`, as a client writes a product id into a URL. */
  function ToDecimal(n: nat): (r: string)
    ensures |r| > 0
  {
    if n < 10 then [('0' as int + n) as char]
    else ToDecimal(n / 10) + [('0' as int + n % 10) as char]
  }

  lemma {:induction false} ToDecimalDigits(n: nat)
    ensures forall i :: 0 <= i < |ToDecimal(n)| ==> IsDigit(ToDecimal(n)[i], 10)
    ensures DigitsValue(ToDecimal(n), 10) == n
    ensures ToDecimal(n)[0] == '0' ==> n == 0
  {
    if n >= 10 {
      ToDecimalDigits(n / 10);
      var d := ToDecimal(n);
      assert d[..|d| - 1] == ToDecimal(n / 10);
      assert d[0] == ToDecimal(n / 10)[0];
    }
  }

  /** `DigitPrefix` stops exactly where the digits stop. */
  lemma {:induction false} DigitPrefixOfDigits(d: string, rest: string, radix: int)
    requires forall i :: 0 <= i < |d| ==> IsDigit(d[i], radix)
    requires rest == [] || !IsDigit(rest[0], radix)
    ensures DigitPrefix(d + rest, radix) == d
  {
    if d != [] {
      assert (d + rest)[1..] == d[1..] + rest;
      DigitPrefixOfDigits(d[1..], rest, radix);
    } else {
      assert d + rest == rest;
    }
  }

  /** `parseInt` reads back the decimal numeral of any natural number, and
      ignores whatever follows the digits ("2abc" and "2.5" are 2). A leading
      "0" followed by "x" or "X" would switch to hexadecimal, hence the second
      requirement. */
  lemma ParseDecimal(n: nat, rest: string)
    requires rest == [] || !IsDigit(rest[0], 10)
    requires n == 0 ==> rest == [] || (rest[0] != 'x' && rest[0] != 'X')
    ensures ParseInt(ToDecimal(n) + rest) == Some(n)
  {
    var s := ToDecimal(n) + rest;
    DecimalStartsWithDigit(n, rest);
    NoSpaceBeforeDigit(s);
    UnsignedDecimal(n, rest);
  }

  lemma DecimalStartsWithDigit(n: nat, rest: string)
    ensures |ToDecimal(n) + rest| > 0 && IsDigit((ToDecimal(n) + rest)[0], 10)
  {
    ToDecimalDigits(n);
    assert (ToDecimal(n) + rest)[0] == ToDecimal(n)[0];
  }

  /** A string that starts with a decimal digit is read without skipping or
      a sign. */
  lemma NoSpaceBeforeDigit(s: string)
    requires |s| > 0 && IsDigit(s[0], 10)
    ensures TrimStart(s) == s && s[0] != '-' && s[0] != '+'
    ensures ParseInt(s) == ParseUnsigned(s)
  {
    var c := s[0];
    assert '0' <= c <= '9';
    assert !IsWhiteSpace(c);
  }

  lemma UnsignedDecimal(n: nat, rest: string)
    requires rest == [] || !IsDigit(rest[0], 10)
    requires n == 0 ==> rest == [] || (rest[0] != 'x' && rest[0] != 'X')
    ensures ParseUnsigned(ToDecimal(n) + rest) == Some(n)
  {
    var s := ToDecimal(n) + rest;
    ToDecimalDigits(n);
    if |s| >= 2 && s[0] == '0' {
      assert ToDecimal(n)[0] == '0';
      assert |ToDecimal(n)| == 1;
      assert s[1] == rest[0];
    }
    DigitPrefixOfDigits(ToDecimal(n), rest, 10);
  }

  /** A segment without a single decimal digit is NaN ("abc", "", "-"). */
  lemma NoDigitIsNaN(s: string)
    requires forall i :: 0 <= i < |s| ==> !IsDigit(s[i], 10)
    ensures ParseInt(s) == None
  {
    var t := TrimStart(s);
    assert forall i :: 0 <= i < |t| ==> !IsDigit(t[i], 10) by {
      forall i | 0 <= i < |t| ensures !IsDigit(t[i], 10) {
        assert t[i] == s[|s| - |t| + i];
      }
    }
    var u := if |t| > 0 && (t[0] == '-' || t[0] == '+') then t[1..] else t;
    assert forall i :: 0 <= i < |u| ==> !IsDigit(u[i], 10);
    assert !(|u| >= 2 && u[0] == '0');
    assert DigitPrefix(u, 10) == [];
  }

  // ---------------------------------------------------------------------
  // The catalog
  // ---------------------------------------------------------------------

  const Description: string :=
    "* Premium-quality Woven Cotton Blended with 2% Spandex\n\n* Tailored straight fit\n\n"
    + "* Flat front with sharp creases \n\n* Comfortable, breathable, and durable\n\n"
    + "* Ideal for office, business, and formal wear"

  const Sizes: seq<int> := [30, 32, 34, 36, 38]

  /** The `products` constant; it is never modified. */
  const Products: seq<Product> := [
    Product(1, "Man's Formal Pant - Cream", 1050, 1400, "https://i.imgur.com/k0ZGqdb.jpeg",
            ["https://i.imgur.com/k0ZGqdb.jpeg"], "Woven Cotton", "Slim Fit", Description, Sizes, 124),
    Product(2, "Man's Formal Pant - Black", 1050, 1400, "https://i.imgur.com/HRM9Abj.jpeg",
            ["https://i.imgur.com/HRM9Abj.jpeg"], "Woven Cotton", "Regular Fit", Description, Sizes, 89),
    Product(3, "Man's Formal Pant - Light Ash", 1050, 1400, "https://i.imgur.com/CHMzGLP.jpeg",
            ["https://i.imgur.com/CHMzGLP.jpeg"], "Woven Cotton", "Slim Fit", Description, Sizes, 210),
    Product(4, "Man's Formal Pant - Dark Navy Blue", 1050, 1400, "https://i.imgur.com/yJ1rBRX.jpeg",
            ["https://i.imgur.com/yJ1rBRX.jpeg"], "Woven Cotton", "Tapered Fit", Description, Sizes, 56)
  ]

  predicate DistinctIds(products: seq<Product>)
  {
    forall i, j :: 0 <= i < j < |products| ==> products[i].id != products[j].id
  }

  lemma CatalogShape()
    ensures DistinctIds(Products)
    ensures forall i :: 0 <= i < |Products| ==> Products[i].id == i + 1
  {
  }

  /** The first product whose id equals the parsed id. NaN equals nothing,
      so `None` finds nothing. */
  function FindProduct(products: seq<Product>, id: Option<int>): (r: Option<Product>)
    ensures r.Some? ==> r.value in products && id == Some(r.value.id)
    ensures r.None? <==> forall p :: p in products ==> id != Some(p.id)
  {
    if products == [] then None
    else if id == Some(products[0].id) then Some(products[0])
    else FindProduct(products[1..], id)
  }

  /** With distinct ids the match is unique: `find` returns the one product with that id. */
  lemma FindUnique(products: seq<Product>, p: Product)
    requires DistinctIds(products)
    requires p in products
    ensures FindProduct(products, Some(p.id)) == Some(p)
  {
    var r := FindProduct(products, Some(p.id));
    var i :| 0 <= i < |products| && products[i] == p;
    var j :| 0 <= j < |products| && products[j] == r.value;
    assert !(i < j) && !(j < i);
  }

  /** `GET /api/products/:id`. */
  function GetProduct(segment: string): (r: Reply)
    ensures r.status == 200 || r == ErrorReply(404, "Product not found")
    ensures r.status == 200 <==> exists p :: p in Products && ParseInt(segment) == Some(p.id)
    ensures r.status == 200 ==>
              r.body.JProduct? && r.body.p in Products && ParseInt(segment) == Some(r.body.p.id)
  {
    match FindProduct(Products, ParseInt(segment))
    case Some(p) => Reply(200, JProduct(p))
    case None => ErrorReply(404, "Product not found")
  }

  /** Every catalog product is served at its decimal id, with or without a
      non-digit tail. */
  lemma LookupByDecimalId(p: Product, rest: string)
    requires p in Products
    requires rest == [] || !IsDigit(rest[0], 10)
    ensures p.id >= 1
    ensures GetProduct(ToDecimal(p.id) + rest) == Reply(200, JProduct(p))
  {
    CatalogShape();
    ParseDecimal(p.id, rest);
    FindUnique(Products, p);
  }

  /** A segment without digits, or one that parses to a number that is no
      catalog id, answers 404. */
  lemma LookupNotFound(segment: string)
    requires (forall i :: 0 <= i < |segment| ==> !IsDigit(segment[i], 10))
             || (ParseInt(segment).Some? && !(1 <= ParseInt(segment).value <= 4))
    ensures GetProduct(segment) == ErrorReply(404, "Product not found")
  {
    CatalogShape();
    if forall i :: 0 <= i < |segment| ==> !IsDigit(segment[i], 10) {
      NoDigitIsNaN(segment);
    }
    forall p | p in Products ensures ParseInt(segment) != Some(p.id) {
      var i :| 0 <= i < |Products| && Products[i] == p;
    }
  }

  /** `parseInt` accepts a hexadecimal prefix, so "0x3" is product 3. */
  lemma HexSegment()
    ensures ParseInt("0x3") == Some(3)
    ensures GetProduct("0x3") == Reply(200, JProduct(Products[2]))
  {
    HexThree();
    CatalogShape();
    FindUnique(Products, Products[2]);
  }

  lemma HexThree()
    ensures ParseInt("0x3") == Some(3)
  {
    var s := "0x3";
    assert IsDigit(s[0], 10);
    NoSpaceBeforeDigit(s);
    assert s[2..] == "3";
    assert DigitPrefix("3", 16) == "3" by {
      assert IsDigit('3', 16);
      assert "3"[1..] == [];
    }
    assert DigitsValue("3", 16) == 3 by {
      assert "3"[..0] == [];
    }
    assert ParseUnsigned(s) == Some(3);
  }
}
