/** Small vocabulary shared by every module. */
module Prelude {
  datatype Option<+T> = None | Some(value: T)

  type Byte = b: int | 0 <= b < 256

  function Min(a: int, b: int): int { if a < b then a else b }

  function Max(a: int, b: int): int { if a < b then b else a }

  function Concat<T>(parts: seq<seq<T>>): seq<T> {
    if parts == [] then [] else parts[0] + Concat(parts[1..])
  }

  /** Python's str.rstrip for one character. */
  function TrimRight(s: string, c: char): string {
    if s != "" && s[|s| - 1] == c then TrimRight(s[..|s| - 1], c) else s
  }

  lemma ConcatAssociative<T>(a: seq<T>, b: seq<T>, c: seq<T>)
    ensures (a + b) + c == a + (b + c)
  {
  }
}

/** Decimal numerals: what `str(n)` prints and what `int(s)` reads back. */
module Decimal {
  predicate IsDigit(c: char) { '0' <= c <= '9' }

  function DigitValue(c: char): (v: int)
    requires IsDigit(c)
    ensures 0 <= v < 10
  {
    c as int - '0' as int
  }

  function DigitChar(d: int): (c: char)
    requires 0 <= d < 10
    ensures IsDigit(c) && DigitValue(c) == d
  {
    ('0' as int + d) as char
  }

  predicate IsNumeral(s: string) { forall i | 0 <= i < |s| :: IsDigit(s[i]) }

  /** The number a run of digits denotes; leading zeros are harmless. */
  function Value(s: string): (n: nat)
    requires IsNumeral(s)
  {
    if s == [] then 0 else Value(s[..|s| - 1]) * 10 + DigitValue(s[|s| - 1])
  }

  function Digits(n: nat): (s: string)
    ensures |s| > 0 && IsNumeral(s)
  {
    if n < 10 then [DigitChar(n)] else Digits(n / 10) + [DigitChar(n % 10)]
  }

  lemma {:induction false} DigitsReadBack(n: nat)
    ensures Value(Digits(n)) == n
  {
    if n < 10 {
      assert Digits(n)[..0] == [];
    } else {
      DigitsReadBack(n / 10);
      assert Digits(n)[..|Digits(n)| - 1] == Digits(n / 10);
    }
  }

  lemma DigitsInjective(m: nat, n: nat)
    requires Digits(m) == Digits(n)
    ensures m == n
  {
    DigitsReadBack(m);
    DigitsReadBack(n);
  }
}

/** Dictionaries as Python builds them. */
module Dictionary {
  /** A dictionary from its items; a later item replaces an earlier one of the same key. */
  function Dict<K, V>(items: seq<(K, V)>): map<K, V> {
    if items == [] then map[]
    else Dict(items[..|items| - 1])[items[|items| - 1].0 := items[|items| - 1].1]
  }

  /** No later item has the key of item i. */
  predicate IsLatest<K(==), V>(items: seq<(K, V)>, i: int) {
    0 <= i < |items| && forall j | i < j < |items| :: items[j].0 != items[i].0
  }

  lemma {:induction false} DictHolds<K, V>(items: seq<(K, V)>)
    ensures forall k :: k in Dict(items) <==> exists i :: 0 <= i < |items| && items[i].0 == k
    ensures forall i | IsLatest(items, i) :: items[i].0 in Dict(items) && Dict(items)[items[i].0] == items[i].1
    decreases items
  {
    if items != [] {
      var init := items[..|items| - 1];
      DictHolds(init);
      forall k ensures k in Dict(items) <==> exists i :: 0 <= i < |items| && items[i].0 == k {
        if i :| 0 <= i < |items| && items[i].0 == k && i < |init| {
          assert init[i].0 == k;
        }
      }
      forall i | IsLatest(items, i) ensures Dict(items)[items[i].0] == items[i].1 {
        if i < |init| {
          assert IsLatest(init, i) && init[i] == items[i];
        }
      }
    }
  }
}
