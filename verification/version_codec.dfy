/** Bit operations on numbers, bit by bit, and what they are on fields side by side. */
module Bits {

  function Or(x: nat, y: nat): nat
    decreases x + y
  {
    if x + y == 0 then 0 else 2 * Or(x / 2, y / 2) + if x % 2 + y % 2 > 0 then 1 else 0
  }

  function And(x: nat, y: nat): nat {
    if x == 0 then 0 else 2 * And(x / 2, y / 2) + if x % 2 == 1 == y % 2 then 1 else 0
  }

  /** A shift to the left that loses no bit. */
  function Up(x: nat, n: nat): nat {
    if n == 0 then x else 2 * Up(x, n - 1)
  }

  /** The shift to the left of a 32-bit word. */
  function Shl(x: nat, n: nat): nat { Up(x, n) % 0x1_0000_0000 }

  function Shr(x: nat, n: nat): nat {
    if n == 0 then x else Shr(x / 2, n - 1)
  }

  /** The lowest bits. */
  function Low(x: nat, n: nat): nat {
    if n == 0 then 0 else 2 * Low(x / 2, n - 1) + x % 2
  }

  function Ones(n: nat): nat {
    if n == 0 then 0 else 2 * Ones(n - 1) + 1
  }

  /** A word with free low bits and one that fits into them do not overlap. */
  lemma {:induction false} OrIsSum(x: nat, y: nat, n: nat)
    requires x <= Ones(n)
    ensures Or(x, Up(y, n)) == x + Up(y, n)
  {
    if n == 0 {
      OrZero(y);
    } else {
      OrIsSum(x / 2, y, n - 1);
      assert Up(y, n) / 2 == Up(y, n - 1);
    }
  }

  lemma {:induction false} OrZero(y: nat)
    ensures Or(0, y) == y
  {
    if y > 0 { OrZero(y / 2); }
  }

  /** A mask of ones keeps the lowest bits. */
  lemma {:induction false} MaskIsLow(x: nat, n: nat)
    ensures And(x, Ones(n)) == Low(x, n)
  {
    if n == 0 {
      AndZero(x);
    } else if x == 0 {
      LowZero(n);
    } else {
      MaskIsLow(x / 2, n - 1);
      assert Ones(n) / 2 == Ones(n - 1) && Ones(n) % 2 == 1;
    }
  }

  lemma {:induction false} AndZero(x: nat)
    ensures And(x, 0) == 0
  {
    if x > 0 { AndZero(x / 2); }
  }

  lemma {:induction false} LowZero(n: nat)
    ensures Low(0, n) == 0
  {
    if n > 0 { LowZero(n - 1); }
  }

  /** Every number is its lowest bits and the shifted rest. */
  lemma {:induction false} LowAndRest(x: nat, n: nat)
    ensures x == Low(x, n) + Up(Shr(x, n), n) && Low(x, n) <= Ones(n)
  {
    if n > 0 { LowAndRest(x / 2, n - 1); }
  }

  /** And in only one way. */
  lemma {:induction false} FieldsOfSum(x: nat, y: nat, n: nat)
    requires x <= Ones(n)
    ensures Low(x + Up(y, n), n) == x && Shr(x + Up(y, n), n) == y
  {
    if n > 0 {
      assert (x + Up(y, n)) / 2 == x / 2 + Up(y, n - 1);
      FieldsOfSum(x / 2, y, n - 1);
    }
  }

  lemma {:induction false} ShrTwice(x: nat, m: nat, n: nat)
    ensures Shr(Shr(x, m), n) == Shr(x, m + n)
  {
    if m > 0 { ShrTwice(x / 2, m - 1, n); }
  }

  lemma {:induction false} LowTwice(x: nat, m: nat, n: nat)
    ensures Low(x, m + n) == Low(x, m) + Up(Low(Shr(x, m), n), m)
  {
    if m > 0 { LowTwice(x / 2, m - 1, n); }
  }

  lemma {:induction false} UpTwice(x: nat, m: nat, n: nat)
    ensures Up(Up(x, m), n) == Up(x, m + n)
  {
    if n > 0 { UpTwice(x, m, n - 1); }
  }

  lemma FiveBits(x: nat)
    ensures Up(x, 5) == 32 * x
  {
    assert Up(x, 1) == 2 * x;
    assert Up(x, 2) == 4 * x;
    assert Up(x, 3) == 8 * x;
    assert Up(x, 4) == 16 * x;
  }

  lemma TenBits(x: nat)
    ensures Ones(10) == 1023 && Up(x, 10) == 1024 * x
  {
    FiveBits(x);
    FiveBits(32 * x);
    UpTwice(x, 5, 5);
  }

  lemma TwentyBits(x: nat)
    ensures Ones(20) == 0xF_FFFF && Up(x, 20) == 0x10_0000 * x
  {
    TenBits(x);
    TenBits(1024 * x);
    UpTwice(x, 10, 10);
  }

  lemma ThirtyBitsIff(v: nat)
    ensures Low(v, 30) == v <==> v < 0x4000_0000
  {
    LowAndRest(v, 30);
    TwentyBits(0);
    assert Ones(25) == 0x1FF_FFFF;
    assert Ones(30) == 0x3FFF_FFFF;
    UpTwice(Shr(v, 30), 10, 20);
    TenBits(Shr(v, 30));
    TwentyBits(1024 * Shr(v, 30));
  }
}

/** Versions "major.minor.patch" as three 10-bit fields of a 32-bit word. */
module VersionCodec {
  import opened Results
  import opened Bits

  // ---------------------------------------------------------------- text

  predicate IsDigits(s: string) { forall i :: 0 <= i < |s| ==> '0' <= s[i] <= '9' }

  /** The number a string of digits denotes. */
  function Value(s: string): nat
    requires IsDigits(s)
  {
    if s == [] then 0 else Value(s[..|s| - 1]) * 10 + (s[|s| - 1] - '0') as nat
  }

  /** Decimal printing without leading zeros. */
  function Decimal(n: nat): string {
    if n < 10 then [n as char + '0'] else Decimal(n / 10) + [(n % 10) as char + '0']
  }

  /** `str::parse::<u32>`: an optional plus sign, then at least one digit, within range. */
  function ParseU32(s: string): Result<nat> {
    var ds := if s != [] && s[0] == '+' then s[1..] else s;
    if ds == [] || !IsDigits(ds) || Value(ds) >= 0x1_0000_0000 then Err(InvalidNumber) else Ok(Value(ds))
  }

  /** `str::split('.')`. */
  function Split(s: string): (parts: seq<string>)
    ensures |parts| >= 1
  {
    if s == [] then [[]]
    else
      var parts := Split(s[1..]);
      if s[0] == '.' then [[]] + parts else [[s[0]] + parts[0]] + parts[1..]
  }

  // ---------------------------------------------------------------- fields

  type U32 = v: nat | v < 0x1_0000_0000

  function Major(v: U32): nat { And(Shr(v, 20), 1023) }
  function Minor(v: U32): nat { And(Shr(v, 10), 1023) }
  function Patch(v: U32): nat { And(v, 1023) }

  /** The word with three fields. */
  function Pack(a: nat, b: nat, c: nat): U32
    requires a < 1024 && b < 1024 && c < 1024
  {
    c + b * 1024 + a * 0x10_0000
  }

  function Field(part: string): (r: Result<nat>)
    ensures r.Ok? ==> r.value < 1024
  {
    var num :- ParseU32(part);
    if num >= 1024 then Err(NumberTooLarge) else Ok(num)
  }

  /** The parts are read from the right. */
  function ParseVersion(s: string): Result<U32> {
    var parts := Split(s);
    if |parts| != 3 then Err(InvalidVersion)
    else
      var c :- Field(parts[2]);
      var b :- Field(parts[1]);
      var a :- Field(parts[0]);
      Ok(Pack(a, b, c))
  }

  function PrintVersion(v: U32): string {
    Decimal(Major(v)) + "." + Decimal(Minor(v)) + "." + Decimal(Patch(v))
  }

  method VersionToU32(version: string) returns (r: Result<U32>)
    ensures r == ParseVersion(version)
  {
    var parts := Split(version);
    if |parts| != 3 { return Err(InvalidVersion); }
    var numeric: U32, i := 0, 0;
    while i < 3
      invariant i <= 3
      invariant 0 < i ==> Field(parts[2]).Ok?
      invariant 1 < i ==> Field(parts[1]).Ok?
      invariant 2 < i ==> Field(parts[0]).Ok?
      invariant i == 0 ==> numeric == 0
      invariant i == 1 ==> numeric == Field(parts[2]).value
      invariant i == 2 ==> numeric == Field(parts[2]).value + Field(parts[1]).value * 1024
      invariant i == 3 ==> numeric == Pack(Field(parts[0]).value, Field(parts[1]).value, Field(parts[2]).value)
    {
      var num :- ParseU32(parts[2 - i]);
      if num >= 1024 { return Err(NumberTooLarge); }
      OrAddsField(numeric, num, i);
      numeric := Or(numeric, Shl(num, i * 10));
      i := i + 1;
    }
    return Ok(numeric);
  }

  // ---------------------------------------------------------------- bits

  /** A field in its place, counted from the right. */
  function Place(num: nat, i: nat): nat {
    if i == 0 then num else if i == 1 then 1024 * num else 0x10_0000 * num
  }

  lemma ShiftIsPlace(num: nat, i: nat)
    requires i < 3 && num < 1024
    ensures Up(num, i * 10) == Shl(num, i * 10) == Place(num, i)
  {
    if i == 1 { TenBits(num); } else if i == 2 { TwentyBits(num); }
  }

  /** Each `|=` of the loop adds a field above those already there. */
  lemma OrAddsField(numeric: nat, num: nat, i: nat)
    requires i < 3 && num < 1024 && numeric < Place(1, i)
    ensures Or(numeric, Shl(num, i * 10)) == numeric + Place(num, i)
  {
    ShiftIsPlace(num, i);
    assert numeric <= Ones(i * 10) by {
      if i == 1 { TenBits(num); } else if i == 2 { TwentyBits(num); }
    }
    OrIsSum(numeric, num, i * 10);
  }

  lemma FieldsOfPack(a: nat, b: nat, c: nat)
    requires a < 1024 && b < 1024 && c < 1024
    ensures var v := Pack(a, b, c);
            Major(v) == a && Minor(v) == b && Patch(v) == c && v < 0x4000_0000
  {
    var v := Pack(a, b, c);
    ShrTwice(v, 10, 10);
    FieldOfWord(v);
    FieldOfWord(Shr(v, 10));
    FieldOfWord(Shr(v, 20));
  }

  /** Packing the fields of any word keeps its low thirty bits. */
  lemma PackOfFields(v: U32)
    ensures Major(v) < 1024 && Minor(v) < 1024 && Patch(v) < 1024
    ensures Pack(Major(v), Minor(v), Patch(v)) == Low(v, 30)
  {
    MaskIsLow(v, 10);
    MaskIsLow(Shr(v, 10), 10);
    MaskIsLow(Shr(v, 20), 10);
    FieldOfWord(v);
    FieldOfWord(Shr(v, 10));
    FieldOfWord(Shr(v, 20));
    ShrTwice(v, 10, 10);
    LowTwice(v, 10, 20);
    LowTwice(Shr(v, 10), 10, 10);
    TenBits(Low(Shr(v, 10), 20));
    TenBits(Low(Shr(v, 20), 10));
  }

  lemma FieldOfWord(x: nat)
    ensures And(x, 1023) < 1024 && x == And(x, 1023) + 1024 * Shr(x, 10)
  {
    TenBits(Shr(x, 10));
    MaskIsLow(x, 10);
    LowAndRest(x, 10);
  }

  // ---------------------------------------------------------------- numbers

  /** A canonical number: digits without a sign or a leading zero. */
  predicate Canonical(s: string) {
    s != [] && IsDigits(s) && (|s| > 1 ==> s[0] != '0')
  }

  lemma {:induction false} ValueOfDecimal(n: nat)
    ensures Canonical(Decimal(n)) && Value(Decimal(n)) == n && (n > 0 ==> Decimal(n)[0] != '0')
  {
    if n >= 10 {
      ValueOfDecimal(n / 10);
      var s := Decimal(n);
      assert s[..|s| - 1] == Decimal(n / 10);
    }
  }

  lemma DecimalStep(v: nat, d: nat)
    requires v > 0 && d < 10
    ensures Decimal(v * 10 + d) == Decimal(v) + [d as char + '0']
  {
    assert (v * 10 + d) / 10 == v && (v * 10 + d) % 10 == d;
  }

  lemma DigitBack(c: char)
    requires '0' <= c <= '9'
    ensures (c - '0') as nat < 10 && (c - '0') as nat as char + '0' == c
  {
  }

  lemma {:induction false} DecimalOfValue(s: string)
    requires Canonical(s)
    ensures Decimal(Value(s)) == s
    ensures s[0] != '0' ==> Value(s) > 0
  {
    var n := |s| - 1;
    DigitBack(s[n]);
    if n == 0 {
      assert s[..n] == [];
    } else {
      DecimalOfValue(s[..n]);
      DecimalStep(Value(s[..n]), (s[n] - '0') as nat);
      assert s == s[..n] + [s[n]];
    }
  }

  /** Printing a parsed number gives the text back exactly when the text is canonical. */
  lemma CanonicalIff(s: string)
    requires ParseU32(s).Ok?
    ensures Decimal(ParseU32(s).value) == s <==> Canonical(s)
  {
    ValueOfDecimal(ParseU32(s).value);
    if Canonical(s) { DecimalOfValue(s); }
  }

  // ---------------------------------------------------------------- parts

  predicate NoDot(s: string) { forall i :: 0 <= i < |s| ==> s[i] != '.' }

  lemma {:induction false} SplitNoDot(s: string)
    requires NoDot(s)
    ensures Split(s) == [s]
  {
    if s != [] {
      SplitNoDot(s[1..]);
      assert [s[0]] + s[1..] == s;
    }
  }

  lemma {:induction false} SplitAtDot(a: string, rest: string)
    requires NoDot(a)
    ensures Split(a + "." + rest) == [a] + Split(rest)
  {
    var s := a + "." + rest;
    if a == [] {
      assert s[1..] == rest;
    } else {
      assert s[1..] == a[1..] + "." + rest;
      SplitAtDot(a[1..], rest);
      assert [a[0]] + a[1..] == a;
    }
  }

  function Join(parts: seq<string>): string
    requires parts != []
  {
    if |parts| == 1 then parts[0] else parts[0] + "." + Join(parts[1..])
  }

  /** Splitting loses nothing, and leaves no dot in any part. */
  lemma {:induction false} JoinOfSplit(s: string)
    ensures Join(Split(s)) == s
    ensures forall i :: 0 <= i < |Split(s)| ==> NoDot(Split(s)[i])
  {
    if s != [] {
      JoinOfSplit(s[1..]);
      var parts := Split(s[1..]);
      if s[0] == '.' {
        assert Split(s)[1..] == parts;
        assert Join(Split(s)) == [] + "." + Join(parts);
      } else {
        assert Split(s)[0] == [s[0]] + parts[0];
        if |parts| > 1 { assert Split(s)[1..] == parts[1..]; }
      }
    }
  }

  lemma ThreeParts(a: string, b: string, c: string)
    requires NoDot(a) && NoDot(b) && NoDot(c)
    ensures Split(a + "." + b + "." + c) == [a, b, c]
  {
    assert a + "." + b + "." + c == a + "." + (b + "." + c);
    SplitAtDot(a, b + "." + c);
    SplitAtDot(b, c);
    SplitNoDot(c);
  }

  lemma NumbersHaveNoDot(s: string)
    requires ParseU32(s).Ok?
    ensures NoDot(s)
  {
    var ds := if s[0] == '+' then s[1..] else s;
    assert IsDigits(ds);
    forall i | 0 <= i < |s| ensures s[i] != '.' {
      if s[0] == '+' && i > 0 { assert s[i] == ds[i - 1]; }
    }
  }

  // ---------------------------------------------------------------- the codec

  /** A number is one or more digits, with or without a plus sign, that denote a value below
      1024; leading zeros do not matter. */
  lemma NumberIff(part: string)
    ensures Field(part).Ok? <==> exists ds :: IsNumber(part, ds)
    ensures forall ds | IsNumber(part, ds) :: Field(part) == Ok(Value(ds))
  {
    if Field(part).Ok? {
      var ds := if part[0] == '+' then part[1..] else part;
      assert part[0] == '+' ==> part == "+" + ds;
      assert IsNumber(part, ds);
    }
    forall ds | IsNumber(part, ds) ensures Field(part) == Ok(Value(ds)) {
      if part == "+" + ds { assert part[1..] == ds; }
    }
  }

  predicate IsNumber(part: string, ds: string) {
    ds != [] && IsDigits(ds) && (part == ds || part == "+" + ds) && Value(ds) < 1024
  }

  lemma {:induction false} LeadingZero(ds: string)
    requires IsDigits(ds)
    ensures IsDigits("0" + ds) && Value("0" + ds) == Value(ds)
  {
    var all := "0" + ds;
    if ds == [] {
      assert all[..|all| - 1] == [];
    } else {
      assert all[..|all| - 1] == "0" + ds[..|ds| - 1];
      LeadingZero(ds[..|ds| - 1]);
    }
  }

  /** A version text with its three numbers. */
  predicate Denotes(s: string, a: string, b: string, c: string) {
    && s == a + "." + b + "." + c
    && Field(a).Ok? && Field(b).Ok? && Field(c).Ok?
  }

  lemma DenotesParses(s: string, a: string, b: string, c: string)
    requires Denotes(s, a, b, c)
    ensures ParseVersion(s) == Ok(Pack(Field(a).value, Field(b).value, Field(c).value))
  {
    NumbersHaveNoDot(a);
    NumbersHaveNoDot(b);
    NumbersHaveNoDot(c);
    ThreeParts(a, b, c);
  }

  lemma JoinOfThree(a: string, b: string, c: string)
    ensures Join([a, b, c]) == a + "." + b + "." + c
  {
    var parts := [a, b, c];
    assert parts[1..] == [b, c] && [b, c][1..] == [c];
    assert Join([b, c]) == b + "." + Join([c]);
    assert a + "." + (b + "." + c) == a + "." + b + "." + c;
  }

  /** Parsing succeeds exactly on three dot-separated numbers below 1024. */
  lemma ParseSucceedsIff(s: string)
    ensures ParseVersion(s).Ok? <==> exists a, b, c :: Denotes(s, a, b, c)
  {
    if ParseVersion(s).Ok? {
      var parts := Split(s);
      JoinOfSplit(s);
      JoinOfThree(parts[0], parts[1], parts[2]);
      assert parts == [parts[0], parts[1], parts[2]];
      assert Denotes(s, parts[0], parts[1], parts[2]);
    }
    if exists a, b, c :: Denotes(s, a, b, c) {
      var a, b, c :| Denotes(s, a, b, c);
      DenotesParses(s, a, b, c);
    }
  }

  lemma FieldOfDecimal(n: nat)
    requires n < 1024
    ensures Field(Decimal(n)) == Ok(n)
  {
    ValueOfDecimal(n);
  }

  lemma ParseOfDecimals(a: nat, b: nat, c: nat)
    requires a < 1024 && b < 1024 && c < 1024
    ensures ParseVersion(Decimal(a) + "." + Decimal(b) + "." + Decimal(c)) == Ok(Pack(a, b, c))
  {
    FieldOfDecimal(a);
    FieldOfDecimal(b);
    FieldOfDecimal(c);
    DenotesParses(Decimal(a) + "." + Decimal(b) + "." + Decimal(c), Decimal(a), Decimal(b), Decimal(c));
  }

  /** Parsing a printed word gives its low thirty bits, so the word itself exactly below 2^30. */
  lemma ParseOfPrint(v: U32)
    ensures ParseVersion(PrintVersion(v)) == Ok(Low(v, 30))
    ensures ParseVersion(PrintVersion(v)) == Ok(v) <==> v < 0x4000_0000
  {
    PackOfFields(v);
    ThirtyBitsIff(v);
    ParseOfDecimals(Major(v), Minor(v), Patch(v));
  }

  lemma PrintOfDenoted(s: string, a: string, b: string, c: string)
    requires Denotes(s, a, b, c)
    ensures ParseVersion(s).Ok?
    ensures PrintVersion(ParseVersion(s).value)
            == Decimal(Field(a).value) + "." + Decimal(Field(b).value) + "." + Decimal(Field(c).value)
  {
    DenotesParses(s, a, b, c);
    FieldsOfPack(Field(a).value, Field(b).value, Field(c).value);
  }

  /** Two texts of three parts are equal exactly when the parts are. */
  lemma SamePartsIff(a: string, b: string, c: string, x: string, y: string, z: string)
    requires NoDot(a) && NoDot(b) && NoDot(c) && NoDot(x) && NoDot(y) && NoDot(z)
    ensures a + "." + b + "." + c == x + "." + y + "." + z <==> a == x && b == y && c == z
  {
    ThreeParts(a, b, c);
    ThreeParts(x, y, z);
    var p, q := [a, b, c], [x, y, z];
    assert p == q ==> p[0] == q[0] && p[1] == q[1] && p[2] == q[2];
  }

  lemma DecimalHasNoDot(n: nat)
    ensures NoDot(Decimal(n))
  {
    ValueOfDecimal(n);
  }

  /** Printing a parsed text gives it back exactly when its three numbers are canonical. */
  lemma PrintOfParse(s: string, a: string, b: string, c: string)
    requires Denotes(s, a, b, c)
    ensures ParseVersion(s).Ok?
    ensures PrintVersion(ParseVersion(s).value) == s <==> Canonical(a) && Canonical(b) && Canonical(c)
  {
    PrintOfDenoted(s, a, b, c);
    var (x, y, z) := (Decimal(Field(a).value), Decimal(Field(b).value), Decimal(Field(c).value));
    NumbersHaveNoDot(a);
    NumbersHaveNoDot(b);
    NumbersHaveNoDot(c);
    DecimalHasNoDot(Field(a).value);
    DecimalHasNoDot(Field(b).value);
    DecimalHasNoDot(Field(c).value);
    SamePartsIff(x, y, z, a, b, c);
    CanonicalIff(a);
    CanonicalIff(b);
    CanonicalIff(c);
  }

  /** One version comes before another: number by number, from the left. */
  predicate Earlier(a: nat, b: nat, c: nat, x: nat, y: nat, z: nat) {
    a < x || (a == x && (b < y || (b == y && c < z)))
  }

  /** Words compare as the versions do. */
  lemma OrderAgrees(s: string, a: string, b: string, c: string, t: string, x: string, y: string, z: string)
    requires Denotes(s, a, b, c) && Denotes(t, x, y, z)
    ensures ParseVersion(s).Ok? && ParseVersion(t).Ok?
    ensures ParseVersion(s).value < ParseVersion(t).value
            <==> Earlier(Field(a).value, Field(b).value, Field(c).value, Field(x).value, Field(y).value, Field(z).value)
  {
    DenotesParses(s, a, b, c);
    DenotesParses(t, x, y, z);
  }
}
