/** Strings as the source uses them: path segments, decimal numbers, UTF-8 lengths and ordering. */
module Text {
  import opened Wrappers

  // ----- `split('/')` -----

  function Split(s: string): (parts: seq<string>)
    ensures |parts| >= 1
  {
    if s == "" then [""]
    else
      var rest := Split(s[1..]);
      if s[0] == '/' then [""] + rest else [[s[0]] + rest[0]] + rest[1..]
  }

  function Join(parts: seq<string>): string
    requires |parts| >= 1
  {
    if |parts| == 1 then parts[0] else parts[0] + "/" + Join(parts[1..])
  }

  predicate Slashless(s: string) {
    '/' !in s
  }

  /** Joining the segments of a path gives the path back, and no segment holds a slash. */
  lemma {:induction false} JoinSplit(s: string)
    ensures Join(Split(s)) == s
    ensures forall part | part in Split(s) :: Slashless(part)
  {
    if s != "" {
      var rest := Split(s[1..]);
      JoinSplit(s[1..]);
      if s[0] == '/' {
        assert Split(s)[1..] == rest;
        assert s == "/" + s[1..];
      } else {
        assert Split(s)[1..] == rest[1..];
        assert s == [s[0]] + s[1..];
        assert Slashless(rest[0]) by {
          assert rest[0] in rest;
        }
      }
    }
  }

  // ----- decimal numbers -----

  function Digit(d: nat): char
    requires d < 10
  {
    "0123456789"[d]
  }

  function Decimal(n: nat): (s: string)
    ensures s != "" && Slashless(s)
  {
    if n < 10 then [Digit(n)] else Decimal(n / 10) + [Digit(n % 10)]
  }

  /** The value a numeral stands for. */
  function Value(s: string): nat
    decreases |s|
  {
    if s == "" then 0
    else Value(s[..|s| - 1]) * 10 + if '0' <= s[|s| - 1] <= '9' then s[|s| - 1] as nat - '0' as nat else 0
  }

  /** The numeral of a number stands for it, in digits only and without leading zeros. */
  lemma {:induction false} DecimalValue(n: nat)
    ensures Value(Decimal(n)) == n && (forall c | c in Decimal(n) :: '0' <= c <= '9')
    ensures n > 0 ==> Decimal(n)[0] != '0'
  {
    assert forall d: nat | d < 10 :: Digit(d) as int == '0' as int + d;
    if n >= 10 {
      DecimalValue(n / 10);
      var s := Decimal(n);
      assert s[..|s| - 1] == Decimal(n / 10) && s[|s| - 1] == Digit(n % 10);
    } else {
      assert [Digit(n)][..0] == "";
    }
  }

  lemma {:induction false} DecimalInjective(a: nat, b: nat)
    requires Decimal(a) == Decimal(b)
    ensures a == b
  {
    var s, t := Decimal(a), Decimal(b);
    assert s[|s| - 1] == Digit(a % 10) && t[|t| - 1] == Digit(b % 10);
    if a >= 10 && b >= 10 {
      assert s[..|s| - 1] == Decimal(a / 10) && t[..|t| - 1] == Decimal(b / 10);
      DecimalInjective(a / 10, b / 10);
    }
  }

  // ----- UTF-8 -----

  function Utf8Size(c: char): nat {
    if c as int < 0x80 then 1 else if c as int < 0x800 then 2 else if c as int < 0x1_0000 then 3 else 4
  }

  /** The byte length of a string, the `len()` of the source. */
  function ByteLength(s: string): nat {
    if s == "" then 0 else Utf8Size(s[0]) + ByteLength(s[1..])
  }

  /** The bytes of one character's UTF-8 form. */
  function Utf8(c: char): (b: seq<int>)
    requires c as int < 0x11_0000
    ensures forall x | x in b :: 0 <= x < 0x100
  {
    var n := c as int;
    if n < 0x80 then [n]
    else if n < 0x800 then [0xC0 + n / 0x40, 0x80 + n % 0x40]
    else if n < 0x1_0000 then [0xE0 + n / 0x1000, 0x80 + n / 0x40 % 0x40, 0x80 + n % 0x40]
    else [0xF0 + n / 0x4_0000, 0x80 + n / 0x1000 % 0x40, 0x80 + n / 0x40 % 0x40, 0x80 + n % 0x40]
  }

  function Utf8All(s: string): seq<int>
    requires forall c | c in s :: c as int < 0x11_0000
  {
    if s == "" then [] else Utf8(s[0]) + Utf8All(s[1..])
  }

  /** The byte length is that of the UTF-8 form. */
  lemma {:induction false} ByteLengthIsUtf8(s: string)
    requires forall c | c in s :: c as int < 0x11_0000
    ensures ByteLength(s) == |Utf8All(s)|
  {
    if s != "" {
      ByteLengthIsUtf8(s[1..]);
    }
  }

  // ----- ordering -----

  predicate StrLeq(a: string, b: string) {
    a == "" || (b != "" && (a[0] < b[0] || (a[0] == b[0] && StrLeq(a[1..], b[1..]))))
  }

  lemma {:induction false} StrLeqTotal(a: string, b: string)
    ensures StrLeq(a, b) || StrLeq(b, a)
  {
    if a != "" && b != "" && a[0] == b[0] {
      StrLeqTotal(a[1..], b[1..]);
    }
  }

  /** The first strings up to `i` agree, and there the first is smaller or has ended. */
  predicate DiffersAt(a: string, b: string, i: nat) {
    i <= |a| && i <= |b| && a[..i] == b[..i] && (i == |a| || (i < |b| && a[i] < b[i]))
  }

  /** The order is the lexicographic one. */
  lemma {:induction false} StrLeqExactly(a: string, b: string)
    ensures StrLeq(a, b) <==> exists i: nat :: DiffersAt(a, b, i)
  {
    if a == "" {
      assert DiffersAt(a, b, 0);
    } else if b != "" && a[0] < b[0] {
      assert DiffersAt(a, b, 0);
    } else if b != "" && a[0] == b[0] {
      StrLeqExactly(a[1..], b[1..]);
      forall i: nat | i < |a| && i < |b|
        ensures DiffersAt(a[1..], b[1..], i) <==> DiffersAt(a, b, i + 1)
      {
        assert a[..i + 1] == [a[0]] + a[1..][..i] && b[..i + 1] == [b[0]] + b[1..][..i];
      }
      assert !DiffersAt(a, b, 0);
      assert forall i: nat | i > 0 && DiffersAt(a, b, i) :: DiffersAt(a[1..], b[1..], i - 1);
    } else {
      assert !DiffersAt(a, b, 0);
      forall i: nat | i > 0 && i <= |a| && i <= |b|
        ensures !DiffersAt(a, b, i)
      {
        assert a[..i][0] == a[0] && b[..i][0] == b[0];
      }
    }
  }

  ghost predicate SortedBy<T>(key: T -> string, items: seq<T>) {
    forall i | 0 <= i < |items| - 1 :: StrLeq(key(items[i]), key(items[i + 1]))
  }

  function InsertBy<T>(key: T -> string, item: T, items: seq<T>): (r: seq<T>)
    ensures |r| == |items| + 1
    ensures r[0] == item || (items != [] && r[0] == items[0])
  {
    if items == [] || StrLeq(key(item), key(items[0])) then [item] + items
    else [items[0]] + InsertBy(key, item, items[1..])
  }

  lemma {:induction false} InsertKeepsSorted<T>(key: T -> string, item: T, items: seq<T>)
    requires SortedBy(key, items)
    ensures SortedBy(key, InsertBy(key, item, items))
  {
    if items != [] && !StrLeq(key(item), key(items[0])) {
      InsertKeepsSorted(key, item, items[1..]);
      StrLeqTotal(key(item), key(items[0]));
    }
  }

  lemma {:induction false} InsertAddsOne<T>(key: T -> string, item: T, items: seq<T>)
    ensures multiset(InsertBy(key, item, items)) == multiset(items) + multiset{item}
  {
    if items != [] {
      assert items == [items[0]] + items[1..];
      InsertAddsOne(key, item, items[1..]);
    }
  }

  /** `sort_by` on a string key. */
  function SortBy<T>(key: T -> string, items: seq<T>): seq<T> {
    if items == [] then [] else InsertBy(key, items[0], SortBy(key, items[1..]))
  }

  /** Sorting returns a sorted permutation. */
  lemma {:induction false} SortByMeaning<T>(key: T -> string, items: seq<T>)
    ensures SortedBy(key, SortBy(key, items))
    ensures multiset(SortBy(key, items)) == multiset(items)
  {
    if items != [] {
      SortByMeaning(key, items[1..]);
      InsertKeepsSorted(key, items[0], SortBy(key, items[1..]));
      InsertAddsOne(key, items[0], SortBy(key, items[1..]));
      assert items == [items[0]] + items[1..];
    }
  }

  /** A permutation has the same members. */
  lemma SamePermutation<T>(a: seq<T>, b: seq<T>)
    requires multiset(a) == multiset(b)
    ensures forall x :: x in a <==> x in b
  {
    forall x
      ensures x in a <==> x in b
    {
      assert x in a <==> x in multiset(a);
      assert x in b <==> x in multiset(b);
    }
  }
}
