/** Shared vocabulary of the model: bytes, byte strings, an Option type,
    the UTF-8 encoding of string literals, little-endian 16-bit fields and
    decimal numbers as text. */
module Common {

  /** An unsigned 8-bit value (Rust `u8`). */
  type byte = x: int | 0 <= x < 256

  /** Text as it travels on the wire: the bytes of a Rust `String`. The model
      treats payloads as well-formed UTF-8, so `from_utf8_lossy` is the identity. */
  type Text = seq<byte>

  datatype Option<+T> = None | Some(value: T)

  function GetOr<K, V>(m: map<K, V>, k: K, default: V): V
  {
    if k in m then m[k] else default
  }

  /** No element occurs twice. */
  predicate NoDup<T(==)>(s: seq<T>)
  {
    forall i, j :: 0 <= i < j < |s| ==> s[i] != s[j]
  }

  /** Dropping the last element keeps a sequence duplicate-free, and the
      dropped element is not among the rest. */
  lemma NoDupDropLast<T>(s: seq<T>)
    requires s != [] && NoDup(s)
    ensures NoDup(s[..|s| - 1]) && s[|s| - 1] !in s[..|s| - 1]
  {
    var pre := s[..|s| - 1];
    forall a, b | 0 <= a < b < |pre| ensures pre[a] != pre[b] {
      assert pre[a] == s[a] && pre[b] == s[b];
    }
    forall i | 0 <= i < |pre| ensures pre[i] != s[|s| - 1] {
      assert pre[i] == s[i];
    }
  }

  /** `order` lists every key of a map exactly once: the order in which a
      Rust `HashMap` happens to be iterated. */
  predicate Enumerates<K(==)>(order: seq<K>, keys: set<K>)
  {
    NoDup(order) && (forall i :: 0 <= i < |order| ==> order[i] in keys) &&
    (forall k :: k in keys ==> k in order)
  }

  // ---------------------------------------------------------------------------
  // UTF-8, used to spell the string literals of the server as bytes

  /** The UTF-8 encoding of one Unicode scalar value. */
  function Utf8Char(c: char): (r: seq<byte>)
    ensures 1 <= |r| <= 4
    ensures |r| == 1 <==> c as int < 0x80
    ensures |r| == 1 ==> r[0] == c as int
    ensures |r| > 1 ==> forall k :: 0 <= k < |r| ==> r[k] >= 0x80
  {
    var n := c as int;
    if n < 0x80 then [n]
    else if n < 0x800 then [0xC0 + n / 64, 0x80 + n % 64]
    else if n < 0x10000 then [0xE0 + n / 4096, 0x80 + (n / 64) % 64, 0x80 + n % 64]
    else [0xF0 + n / 262144, 0x80 + (n / 4096) % 64, 0x80 + (n / 64) % 64, 0x80 + n % 64]
  }

  /** The concatenation of a sequence of byte strings. */
  function Flatten(parts: seq<seq<byte>>): seq<byte>
  {
    if parts == [] then [] else parts[0] + Flatten(parts[1..])
  }

  /** Every part is at least one byte long, so the concatenation is at
      least as long as the number of parts. */
  lemma {:induction false} FlattenLength(parts: seq<seq<byte>>)
    requires forall i :: 0 <= i < |parts| ==> |parts[i]| >= 1
    ensures |Flatten(parts)| >= |parts|
  {
    if parts != [] {
      FlattenLength(parts[1..]);
    }
  }

  /** A byte absent from every part is absent from the concatenation. */
  lemma {:induction false} FlattenAvoids(parts: seq<seq<byte>>, b: byte)
    requires forall i, k :: 0 <= i < |parts| && 0 <= k < |parts[i]| ==> parts[i][k] != b
    ensures forall k :: 0 <= k < |Flatten(parts)| ==> Flatten(parts)[k] != b
  {
    if parts != [] {
      FlattenAvoids(parts[1..], b);
      forall k | 0 <= k < |Flatten(parts)| ensures Flatten(parts)[k] != b {
        if k >= |parts[0]| {
          assert Flatten(parts)[k] == Flatten(parts[1..])[k - |parts[0]|];
        }
      }
    }
  }

  /** Parts of one byte each concatenate to one byte per part. */
  lemma {:induction false} FlattenSingles(parts: seq<seq<byte>>)
    requires forall i :: 0 <= i < |parts| ==> |parts[i]| == 1
    ensures |Flatten(parts)| == |parts|
  {
    if parts != [] {
      FlattenSingles(parts[1..]);
    }
  }

  /** The encodings of the characters of `s`, one part per character. */
  function Utf8Parts(s: string): seq<seq<byte>>
  {
    seq(|s|, i requires 0 <= i < |s| => Utf8Char(s[i]))
  }

  /** `s.as_bytes()` for a Rust string literal. */
  function Utf8(s: string): (r: Text)
    ensures |r| >= |s|
    ensures s == [] <==> r == []
  {
    FlattenLength(Utf8Parts(s));
    Flatten(Utf8Parts(s))
  }

  /** An ASCII string encodes to one byte per character. */
  lemma Utf8AsciiLength(s: string)
    requires forall k :: 0 <= k < |s| ==> s[k] as int < 0x80
    ensures |Utf8(s)| == |s|
  {
    FlattenSingles(Utf8Parts(s));
  }

  /** An encoding of a string without the ASCII character `c` has no byte
      `c`: every byte of a multi-byte character is at least 0x80. */
  lemma Utf8AsciiFree(s: string, c: char)
    requires c as int < 0x80
    requires forall k :: 0 <= k < |s| ==> s[k] != c
    ensures forall k :: 0 <= k < |Utf8(s)| ==> Utf8(s)[k] != c as int
  {
    var parts := Utf8Parts(s);
    forall i, k | 0 <= i < |parts| && 0 <= k < |parts[i]| ensures parts[i][k] != c as int {
      if |parts[i]| == 1 { assert parts[i][0] == s[i] as int; }
    }
    FlattenAvoids(parts, c as int);
  }

  // ---------------------------------------------------------------------------
  // Little-endian 16-bit fields (`u16::to_le_bytes` / `u16::from_le_bytes`)

  predicate IsU16(v: int) { 0 <= v < 0x1_0000 }

  function LE16(v: int): (r: seq<byte>)
    requires IsU16(v)
    ensures |r| == 2 && FromLE16(r[0], r[1]) == v
  {
    [v % 256, v / 256]
  }

  function FromLE16(lo: byte, hi: byte): (v: int)
    ensures IsU16(v)
  {
    lo + 256 * hi
  }

  // ---------------------------------------------------------------------------
  // Decimal numbers as text (`format!("{n}")` and `str::parse::<u8>()`)

  predicate IsDigit(b: byte) { '0' as int <= b <= '9' as int }

  /** The decimal digits of `n`, most significant first, without leading zeros. */
  function Decimal(n: nat): (r: Text)
    ensures |r| >= 1
    ensures forall k :: 0 <= k < |r| ==> IsDigit(r[k])
    decreases n
  {
    if n < 10 then ['0' as int + n] else Decimal(n / 10) + ['0' as int + n % 10]
  }

  /** The value of a string of decimal digits. */
  function DigitsValue(t: Text): nat
    requires forall k :: 0 <= k < |t| ==> IsDigit(t[k])
  {
    if t == [] then 0
    else
      assert IsDigit(t[|t| - 1]);
      DigitsValue(t[..|t| - 1]) * 10 + (t[|t| - 1] - '0' as int)
  }

  /** `str::parse::<u8>()`: an optional `+`, then one or more digits whose
      value fits in a byte; anything else is an error (`None`). */
  function ParseU8(t: Text): (r: Option<byte>)
    ensures r.Some? ==> |t| > 0
    ensures r.Some? ==> forall k :: 0 <= k < |t| ==> IsDigit(t[k]) || (k == 0 && t[0] == '+' as int)
  {
    var d := if |t| > 0 && t[0] == '+' as int then t[1..] else t;
    if |d| == 0 || exists k :: 0 <= k < |d| && !IsDigit(d[k]) then None
    else if DigitsValue(d) < 256 then Some(DigitsValue(d))
    else None
  }

  lemma {:induction false} DigitsValueOfDecimal(n: nat)
    ensures DigitsValue(Decimal(n)) == n
    decreases n
  {
    if n >= 10 {
      DigitsValueOfDecimal(n / 10);
      var d := Decimal(n);
      assert d[..|d| - 1] == Decimal(n / 10);
    }
  }

  /** Printing a byte value and parsing it back gives the value. */
  lemma ParseU8OfDecimal(n: byte)
    ensures ParseU8(Decimal(n)) == Some(n)
  {
    DigitsValueOfDecimal(n);
    assert Decimal(n)[0] != '+' as int;
  }

  // ---------------------------------------------------------------------------
  // Splitting

  /** `str::split` on one separator: the pieces between separators, empty
      pieces included. */
  function SplitOn<T(==)>(t: seq<T>, sep: T): (r: seq<seq<T>>)
    ensures |r| >= 1
    ensures forall i :: 0 <= i < |r| ==> sep !in r[i]
    decreases |t|
  {
    if sep !in t then [t]
    else
      var k := IndexOf(t, sep);
      [t[..k]] + SplitOn(t[k + 1..], sep)
  }

  function IndexOf<T(==)>(t: seq<T>, x: T): (k: nat)
    requires x in t
    ensures k < |t| && t[k] == x && x !in t[..k]
  {
    if t[0] == x then 0 else 1 + IndexOf(t[1..], x)
  }

  /** A piece free of the separator, then the separator, splits off as
      the first piece. */
  lemma {:induction false} SplitOnJoin<T>(a: seq<T>, b: seq<T>, sep: T)
    requires sep !in a
    ensures SplitOn(a + [sep] + b, sep) == [a] + SplitOn(b, sep)
  {
    var t := a + [sep] + b;
    var k := IndexOf(t, sep);
    assert t[|a|] == sep;
    assert t[..k] == a && t[k + 1..] == b;
  }
}
