/** Go strings and byte slices, the hexadecimal printer and the two string splitters
    the peer relies on. One type serves for both `string` and `[]byte`: a character below
    256 stands for a byte. */
module Text {
  type Byte = char
  type Bytes = seq<Byte>

  ghost predicate AllBytes(s: Bytes) {
    forall i :: 0 <= i < |s| ==> s[i] as int < 256
  }

  // ---------------------------------------------------------------- decimal

  function Digit(n: nat): (d: Byte)
    requires n < 16
  {
    "0123456789abcdef"[n]
  }

  /** strconv.Itoa on a natural number. */
  function Itoa(n: nat): Bytes {
    if n < 10 then [Digit(n)] else Itoa(n / 10) + [Digit(n % 10)]
  }

  /** What a decimal numeral denotes. */
  ghost function Decimal(s: Bytes): int {
    if s == [] then 0 else 10 * Decimal(s[..|s| - 1]) + (s[|s| - 1] as int - '0' as int)
  }

  /** Itoa prints the number in decimal digits, without a leading zero. */
  lemma {:induction false} ItoaReads(n: nat)
    ensures Decimal(Itoa(n)) == n
    ensures forall i :: 0 <= i < |Itoa(n)| ==> '0' <= Itoa(n)[i] <= '9'
    ensures Itoa(n) != [] && (n > 0 ==> Itoa(n)[0] != '0')
    decreases n
  {
    if n < 10 {
      assert [Digit(n)][..0] == [];
    } else {
      ItoaReads(n / 10);
      assert Itoa(n)[..|Itoa(n)| - 1] == Itoa(n / 10);
    }
  }

  // ---------------------------------------------------------------- hexadecimal

  /** The hexadecimal digit at position i of the printed form of b. */
  function HexDigit(b: Bytes, i: nat): Byte
    requires i < 2 * |b|
  {
    Digit(if i % 2 == 0 then b[i / 2] as int / 16 % 16 else b[i / 2] as int % 16)
  }

  /** hex.EncodeToString. */
  function Hex(b: Bytes): (h: Bytes)
    ensures |h| == 2 * |b|
  {
    seq(2 * |b|, i requires 0 <= i < 2 * |b| => HexDigit(b, i))
  }

  /** The two digits of a byte determine it. */
  lemma DigitsOfByte(m: nat, n: nat)
    requires m < 256 && n < 256
    requires Digit(m / 16 % 16) == Digit(n / 16 % 16) && Digit(m % 16) == Digit(n % 16)
    ensures m == n
  {
    DigitInjective(m / 16 % 16, n / 16 % 16);
    DigitInjective(m % 16, n % 16);
  }

  lemma DigitInjective(i: nat, j: nat)
    requires i < 16 && j < 16 && Digit(i) == Digit(j)
    ensures i == j
  {
  }

  /** What a hexadecimal digit denotes. */
  ghost function Nibble(c: Byte): int {
    if '0' <= c <= '9' then c as int - '0' as int else 10 + c as int - 'a' as int
  }

  /** The printed form has two digits a byte, the high one first. */
  lemma HexReads(b: Bytes, i: nat)
    requires AllBytes(b) && i < |b|
    ensures 16 * Nibble(Hex(b)[2 * i]) + Nibble(Hex(b)[2 * i + 1]) == b[i] as int
    ensures 0 <= Nibble(Hex(b)[2 * i]) < 16 && 0 <= Nibble(Hex(b)[2 * i + 1]) < 16
  {
    DigitReads(b[i] as int / 16 % 16);
    DigitReads(b[i] as int % 16);
    assert Hex(b)[2 * i] == HexDigit(b, 2 * i) && Hex(b)[2 * i + 1] == HexDigit(b, 2 * i + 1);
  }

  lemma DigitReads(n: nat)
    requires n < 16
    ensures Nibble(Digit(n)) == n
  {
  }

  lemma HexInjective(a: Bytes, b: Bytes)
    requires AllBytes(a) && AllBytes(b) && Hex(a) == Hex(b)
    ensures a == b
  {
    forall k | 0 <= k < |a| ensures a[k] == b[k] {
      assert Hex(a)[2 * k] == HexDigit(a, 2 * k) && Hex(b)[2 * k] == HexDigit(b, 2 * k);
      assert Hex(a)[2 * k + 1] == HexDigit(a, 2 * k + 1) && Hex(b)[2 * k + 1] == HexDigit(b, 2 * k + 1);
      DigitsOfByte(a[k] as int, b[k] as int);
    }
  }

  // ---------------------------------------------------------------- splitting

  /** unicode.IsSpace on ASCII. */
  predicate IsSpace(c: Byte) {
    c as int in {9, 10, 11, 12, 13, 32}
  }

  ghost predicate NoSpace(s: Bytes) {
    forall i :: 0 <= i < |s| ==> !IsSpace(s[i])
  }

  lemma HexHasNoSpace(b: Bytes)
    ensures NoSpace(Hex(b))
  {
    assert forall n: nat :: n < 16 ==> !IsSpace(Digit(n));
  }

  /** strings.Fields, `word` being the field read so far. */
  function FieldsFrom(s: Bytes, word: Bytes): seq<Bytes>
    decreases |s|
  {
    var done := if word == [] then [] else [word];
    if s == [] then done
    else if IsSpace(s[0]) then done + FieldsFrom(s[1..], [])
    else FieldsFrom(s[1..], word + [s[0]])
  }

  function Fields(s: Bytes): seq<Bytes> {
    FieldsFrom(s, [])
  }

  /** strings.Split on a newline. */
  function SplitFrom(s: Bytes, word: Bytes): seq<Bytes>
    decreases |s|
  {
    if s == [] then [word]
    else if s[0] == '\n' then [word] + SplitFrom(s[1..], [])
    else SplitFrom(s[1..], word + [s[0]])
  }

  function Split(s: Bytes): seq<Bytes> {
    SplitFrom(s, [])
  }

  /** The parts, each followed by a newline. */
  function Lines(parts: seq<Bytes>): Bytes {
    if parts == [] then [] else Lines(parts[..|parts| - 1]) + parts[|parts| - 1] + ['\n']
  }

  /** The parts with a newline between them: the lines without the last newline. */
  function Join(parts: seq<Bytes>): Bytes
    requires parts != []
  {
    Lines(parts)[..|Lines(parts)| - 1]
  }

  lemma {:induction false} FieldsOfWord(w: Bytes, word: Bytes, rest: Bytes)
    requires NoSpace(w)
    ensures FieldsFrom(w + rest, word) == FieldsFrom(rest, word + w)
    decreases |w|
  {
    if w == [] {
      assert w + rest == rest && word + w == word;
    } else {
      assert (w + rest)[1..] == w[1..] + rest;
      assert word + [w[0]] + w[1..] == word + w;
      FieldsOfWord(w[1..], word + [w[0]], rest);
    }
  }

  lemma {:induction false} SplitOfWord(w: Bytes, word: Bytes, rest: Bytes)
    requires NoSpace(w)
    ensures SplitFrom(w + rest, word) == SplitFrom(rest, word + w)
    decreases |w|
  {
    if w == [] {
      assert w + rest == rest && word + w == word;
    } else {
      assert (w + rest)[1..] == w[1..] + rest;
      assert word + [w[0]] + w[1..] == word + w;
      SplitOfWord(w[1..], word + [w[0]], rest);
    }
  }

  lemma {:induction false} FieldsOfLines(parts: seq<Bytes>, rest: Bytes)
    requires forall i :: 0 <= i < |parts| ==> parts[i] != [] && NoSpace(parts[i])
    ensures FieldsFrom(Lines(parts) + rest, []) == parts + FieldsFrom(rest, [])
    decreases |parts|
  {
    if parts == [] {
      assert Lines(parts) + rest == rest;
    } else {
      var init, last := parts[..|parts| - 1], parts[|parts| - 1];
      assert Lines(parts) + rest == Lines(init) + (last + (['\n'] + rest));
      FieldsOfLines(init, last + (['\n'] + rest));
      FieldsOfWord(last, [], ['\n'] + rest);
      assert [] + last == last;
      assert (['\n'] + rest)[1..] == rest;
      assert parts == init + [last];
    }
  }

  lemma {:induction false} SplitOfLines(parts: seq<Bytes>, rest: Bytes)
    requires forall i :: 0 <= i < |parts| ==> NoSpace(parts[i])
    ensures SplitFrom(Lines(parts) + rest, []) == parts + SplitFrom(rest, [])
    decreases |parts|
  {
    if parts == [] {
      assert Lines(parts) + rest == rest;
    } else {
      var init, last := parts[..|parts| - 1], parts[|parts| - 1];
      assert Lines(parts) + rest == Lines(init) + (last + (['\n'] + rest));
      SplitOfLines(init, last + (['\n'] + rest));
      SplitOfWord(last, [], ['\n'] + rest);
      assert [] + last == last;
      assert (['\n'] + rest)[1..] == rest;
      assert parts == init + [last];
    }
  }

  /** Fields and Split both invert the join of non-empty parts without white space. */
  lemma SplittersInvertJoin(parts: seq<Bytes>)
    requires parts != [] && forall i :: 0 <= i < |parts| ==> parts[i] != [] && NoSpace(parts[i])
    ensures Fields(Join(parts)) == parts && Split(Join(parts)) == parts
  {
    var init, last := parts[..|parts| - 1], parts[|parts| - 1];
    assert Join(parts) == Lines(init) + (last + []);
    FieldsOfLines(init, last + []);
    FieldsOfWord(last, [], []);
    SplitOfLines(init, last + []);
    SplitOfWord(last, [], []);
    assert [] + last == last;
    assert parts == init + [last];
  }
}
