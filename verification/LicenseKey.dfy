/** Activation keys: normalisation, grouping, and the weighted check symbol. */
module LicenseKey {
  import opened Text

  const ALPHABET: string := "0123456789ABCDEFGHJKMNPQRSTVWXYZ"
  const PAYLOAD_SYMBOLS: nat := 19
  const KEY_SYMBOLS: nat := 20
  const GROUP_SIZE: nat := 5

  // ---------------------------------------------------------------- normalisation

  predicate IsAlnum(c: char) { '0' <= c <= '9' || 'A' <= c <= 'Z' }

  /** What one typed character contributes: a look-alike resolved, a letter or digit, or nothing. */
  function NormalChar(raw: char): string {
    var c := UpperChar(raw);
    if c == 'I' || c == 'L' then "1" else if c == 'O' then "0" else if IsAlnum(c) then [c] else ""
  }

  function Normalized(raw: string): string {
    if raw == "" then "" else Normalized(raw[..|raw| - 1]) + NormalChar(raw[|raw| - 1])
  }

  method NormalizeLicenseKey(raw: string) returns (out: string)
    ensures out == Normalized(raw)
  {
    out := "";
    for i := 0 to |raw|
      invariant out == Normalized(raw[..i])
    {
      assert raw[..i + 1][..i] == raw[..i];
      var c := UpperChar(raw[i]);
      if c == 'I' || c == 'L' {
        out := out + "1";
      } else if c == 'O' {
        out := out + "0";
      } else if IsAlnum(c) {
        out := out + [c];
      }
    }
    assert raw[..|raw|] == raw;
  }

  /** What a character contributes, in either case: `I` and `L` a `1`, `O` a `0`, letters and digits themselves. */
  lemma LettersRead(c: char)
    ensures 'a' <= c <= 'z' ==> NormalChar(c) == NormalChar(c - 'a' + 'A')
    ensures 'A' <= c <= 'Z' ==>
      NormalChar(c) == if c == 'I' || c == 'L' then "1" else if c == 'O' then "0" else [c]
    ensures '0' <= c <= '9' ==> NormalChar(c) == [c]
    ensures !('a' <= c <= 'z') && !('A' <= c <= 'Z') && !('0' <= c <= '9') ==> NormalChar(c) == ""
  {}

  /** A symbol stands for itself: an upper-case letter or digit that is no look-alike. */
  predicate IsPlain(c: char) { NormalChar(c) == [c] }

  lemma NormalCharIsPlain(c: char)
    ensures forall i :: 0 <= i < |NormalChar(c)| ==> IsPlain(NormalChar(c)[i])
  {}

  lemma {:induction false} NormalizedIsPlain(raw: string)
    ensures forall i :: 0 <= i < |Normalized(raw)| ==> IsPlain(Normalized(raw)[i])
  {
    if raw != "" {
      NormalizedIsPlain(raw[..|raw| - 1]);
      NormalCharIsPlain(raw[|raw| - 1]);
    }
  }

  lemma NormalizedLast(init: string, c: char)
    ensures Normalized(init + [c]) == Normalized(init) + NormalChar(c)
  {
    assert (init + [c])[..|init|] == init;
  }

  lemma {:induction false} PlainStays(s: string)
    requires forall i :: 0 <= i < |s| ==> IsPlain(s[i])
    ensures Normalized(s) == s
  {
    if s != "" {
      var init, last := s[..|s| - 1], s[|s| - 1];
      assert s == init + [last] && IsPlain(last);
      hide Normalized, NormalChar;
      PlainStays(init);
      NormalizedLast(init, last);
    }
  }

  lemma {:induction false} NormalizedConcat(a: string, b: string)
    ensures Normalized(a + b) == Normalized(a) + Normalized(b)
  {
    if b == "" {
      assert a + b == a;
    } else {
      assert (a + b)[..|a + b| - 1] == a + b[..|b| - 1];
      NormalizedConcat(a, b[..|b| - 1]);
    }
  }

  /** Normalising again changes nothing. */
  lemma NormalizeTwice(raw: string)
    ensures Normalized(Normalized(raw)) == Normalized(raw)
  {
    NormalizedIsPlain(raw);
    PlainStays(Normalized(raw));
  }

  // ---------------------------------------------------------------- grouping

  /** The symbols in fives, joined by hyphens. */
  function Grouped(s: string): string
    decreases |s|
  {
    if |s| <= GROUP_SIZE then s else s[..GROUP_SIZE] + "-" + Grouped(s[GROUP_SIZE..])
  }

  function Cut(s: string): string { if |s| <= KEY_SYMBOLS then s else s[..KEY_SYMBOLS] }

  lemma {:induction false} JoinOneMore(groups: seq<string>, g: string)
    requires groups != []
    ensures Join(groups + [g], "-") == Join(groups, "-") + "-" + g
  {
    if |groups| > 1 {
      assert (groups + [g])[1..] == groups[1..] + [g];
      JoinOneMore(groups[1..], g);
    } else {
      assert (groups + [g])[1..] == [g];
    }
  }

  lemma {:induction false} GroupOneMore(s: string, i: nat)
    requires 0 < i < |s| <= i + GROUP_SIZE && i % GROUP_SIZE == 0
    ensures Grouped(s) == Grouped(s[..i]) + "-" + s[i..]
    decreases |s|
  {
    if i == GROUP_SIZE {
      assert s[..i][..GROUP_SIZE] == s[..GROUP_SIZE];
    } else {
      assert s[..i][..GROUP_SIZE] == s[..GROUP_SIZE] && s[..i][GROUP_SIZE..] == s[GROUP_SIZE..][..i - GROUP_SIZE];
      assert s[GROUP_SIZE..][i - GROUP_SIZE..] == s[i..];
      GroupOneMore(s[GROUP_SIZE..], i - GROUP_SIZE);
    }
  }

  function UpTo(s: string, i: nat): string { if i <= |s| then s[..i] else s }

  method FormatLicenseKey(raw: string) returns (formatted: string)
    ensures formatted == Grouped(Cut(Normalized(raw)))
  {
    var symbols := NormalizeLicenseKey(raw);
    symbols := Cut(symbols);
    var groups: seq<string> := [];
    var i := 0;
    while i < |symbols|
      invariant i % GROUP_SIZE == 0 && (groups == [] <==> i == 0) && Join(groups, "-") == Grouped(UpTo(symbols, i))
    {
      var g := UpTo(symbols[i..], GROUP_SIZE);
      if i > 0 {
        GroupOneMore(UpTo(symbols, i + GROUP_SIZE), i);
        assert UpTo(symbols, i + GROUP_SIZE)[..i] == symbols[..i] && UpTo(symbols, i + GROUP_SIZE)[i..] == g;
        JoinOneMore(groups, g);
      }
      groups := groups + [g];
      i := i + GROUP_SIZE;
    }
    assert UpTo(symbols, i) == symbols;
    formatted := Join(groups, "-");
  }

  lemma {:induction false} HyphensVanish(s: string)
    requires forall i :: 0 <= i < |s| ==> IsPlain(s[i])
    ensures Normalized(Grouped(s)) == s
    decreases |s|
  {
    if |s| <= GROUP_SIZE {
      PlainStays(s);
    } else {
      var head, tail := s[..GROUP_SIZE], s[GROUP_SIZE..];
      assert s == head + tail && Grouped(s) == (head + "-") + Grouped(tail);
      PlainStays(head);
      HyphensVanish(tail);
      hide *;
      NormalizedConcat(head + "-", Grouped(tail));
      NormalizedConcat(head, "-");
      HyphenIsNothing();
      assert head + "" == head;
    }
  }

  lemma HyphenIsNothing()
    ensures Normalized("-") == ""
  {
    assert "-"[..0] == "";
  }

  /** Every sixth character is a hyphen, and the others are the symbols in order. */
  lemma {:induction false} HyphensEverySix(s: string, k: nat)
    requires s != ""
    ensures |Grouped(s)| == |s| + (|s| - 1) / 5
    ensures k < |Grouped(s)| && k % 6 == 5 ==> Grouped(s)[k] == '-'
    ensures k < |Grouped(s)| && k % 6 != 5 ==> k - k / 6 < |s| && Grouped(s)[k] == s[k - k / 6]
    decreases |s|
  {
    if |s| > 5 {
      HyphensEverySix(s[5..], if k < 6 then 0 else k - 6);
    }
  }

  /** The displayed form reads back as the symbols it shows, at most twenty of them. */
  lemma FormatReadsBack(raw: string)
    ensures Normalized(Grouped(Cut(Normalized(raw)))) == Cut(Normalized(raw))
    ensures |Normalized(raw)| <= 20 ==> Normalized(Grouped(Cut(Normalized(raw)))) == Normalized(raw)
    ensures |Normalized(raw)| > 20 ==> Normalized(Grouped(Cut(Normalized(raw)))) == Normalized(raw)[..20]
  {
    NormalizedIsPlain(raw);
    HyphensVanish(Cut(Normalized(raw)));
  }

  // ---------------------------------------------------------------- the check symbol

  /** A digit or an upper-case letter other than I, L, O and U. */
  predicate IsSymbol(c: char) { IsAlnum(c) && c != 'I' && c != 'L' && c != 'O' && c != 'U' }

  predicate InAlphabet(s: string) { forall i :: 0 <= i < |s| ==> IsSymbol(s[i]) }

  function Letter(c: char): int { c as int - 'A' as int + 10 }

  /** The place of a symbol in the alphabet. */
  function Value(c: char): (v: nat)
    requires IsSymbol(c)
    ensures v < 32
  {
    if c <= '9' then c as int - '0' as int
    else if c < 'I' then Letter(c)
    else if c < 'L' then Letter(c) - 1
    else if c < 'O' then Letter(c) - 2
    else if c < 'U' then Letter(c) - 3
    else Letter(c) - 4
  }

  lemma ValueInjective(c: char, d: char)
    requires IsSymbol(c) && IsSymbol(d) && Value(c) == Value(d)
    ensures c == d
  {}

  lemma ValueOf(v: nat)
    requires v < 32
    ensures IsSymbol(ALPHABET[v]) && Value(ALPHABET[v]) == v
  {}

  /** The symbols are the characters of the alphabet, and the value of one is its place there. */
  lemma ValueIsPlace(c: char)
    ensures IsSymbol(c) <==> c in ALPHABET
    ensures IsSymbol(c) ==> ALPHABET[Value(c)] == c
  {
    hide Value;
    if IsSymbol(c) {
      ValueOf(Value(c));
      ValueInjective(c, ALPHABET[Value(c)]);
    }
    if v :| 0 <= v < |ALPHABET| && ALPHABET[v] == c {
      ValueOf(v);
    }
  }

  function Sum(payload: string): nat
    requires InAlphabet(payload)
  {
    if payload == "" then 0 else
      var i := |payload| - 1;
      Sum(payload[..i]) + Value(payload[i]) * (2 * i + 1)
  }

  lemma SumNext(payload: string, i: nat)
    requires InAlphabet(payload) && i < |payload|
    ensures InAlphabet(payload[..i + 1])
    ensures Sum(payload[..i + 1]) == Sum(payload[..i]) + Value(payload[i]) * (2 * i + 1)
  {
    hide Value;
    assert payload[..i + 1][..i] == payload[..i];
  }

  method CheckSymbol(payload: string) returns (symbol: char)
    requires InAlphabet(payload)
    ensures IsSymbol(symbol) && Value(symbol) == Sum(payload) % 32
  {
    var sum: nat := 0;
    assert payload[..|payload|] == payload && Sum(payload[..0]) == 0;
    hide Sum, Value;
    for i := 0 to |payload|
      invariant sum == Sum(payload[..i])
    {
      SumNext(payload, i);
      sum := sum + Value(payload[i]) * (2 * i + 1);
    }
    symbol := ALPHABET[sum % |ALPHABET|];
    ValueOf(sum % 32);
  }

  /** Twenty symbols whose last one is the weighted sum of the others. */
  predicate IsKey(s: string) {
    |s| == KEY_SYMBOLS && InAlphabet(s) && Value(s[PAYLOAD_SYMBOLS]) == Sum(s[..PAYLOAD_SYMBOLS]) % 32
  }

  method IsLicenseKeyValid(raw: string) returns (ok: bool)
    ensures ok <==> IsKey(Normalized(raw))
  {
    hide Value, Sum, IsSymbol, Normalized;
    var symbols := NormalizeLicenseKey(raw);
    if |symbols| != KEY_SYMBOLS { return false; }
    for i := 0 to |symbols|
      invariant InAlphabet(symbols[..i])
    {
      ValueIsPlace(symbols[i]);
      if symbols[i] !in ALPHABET { return false; }
    }
    assert symbols[..|symbols|] == symbols;
    var check := CheckSymbol(symbols[..PAYLOAD_SYMBOLS]);
    if Value(symbols[PAYLOAD_SYMBOLS]) == Value(check) {
      ValueInjective(symbols[PAYLOAD_SYMBOLS], check);
    }
    ok := symbols[PAYLOAD_SYMBOLS] == check;
  }

  // ---------------------------------------------------------------- what the check symbol catches

  lemma Distribute(a: int, b: int, w: int)
    ensures (a - b) * w == a * w - b * w && (a + b) * w == a * w + b * w
  {}

  lemma Regroup(a: int, b: int, c: int)
    ensures (a * b) * c == a * (b * c)
  {}

  /** What a difference of values at place `i` adds to the sum. */
  function Shift(d: int, i: int): int { d * (2 * i + 1) }

  /** Changing one symbol changes the sum by the difference of values times an odd weight. */
  lemma {:induction false} SumAfterChange(s: string, i: nat, c: char)
    requires InAlphabet(s) && i < |s| && IsSymbol(c)
    ensures InAlphabet(s[i := c])
    ensures Sum(s[i := c]) == Sum(s) + Shift(Value(c) - Value(s[i]), i)
  {
    hide Value, IsSymbol;
    var n := |s| - 1;
    var t := s[i := c];
    assert InAlphabet(t);
    if i == n {
      assert t[..n] == s[..n];
      Distribute(Value(c), Value(s[i]), 2 * i + 1);
    } else {
      assert t[..n] == s[..n][i := c];
      SumAfterChange(s[..n], i, c);
    }
  }

  /** An odd factor does not help a product to be even: one factor of two can be taken out of the other. */
  lemma HalfOf(d: int, m: int, p: int, q: int) returns (e: int)
    requires d * (2 * m + 1) == (2 * p) * q
    ensures d == 2 * e && e * (2 * m + 1) == p * q
  {
    var w := 2 * m + 1;
    Regroup(2, p, q);
    Regroup(2, m, d);
    Distribute(2 * m, -1, d);
    e := p * q - m * d;
    Regroup(2, e, w);
  }

  lemma SmallOddMultiple(d: int, m: int)
    requires -32 < d < 32 && (d * (2 * m + 1)) % 32 == 0
    ensures d == 0
  {
    var q := (d * (2 * m + 1)) / 32;
    var e1 := HalfOf(d, m, 16, q);
    var e2 := HalfOf(e1, m, 8, q);
    var e3 := HalfOf(e2, m, 4, q);
    var e4 := HalfOf(e3, m, 2, q);
    var e5 := HalfOf(e4, m, 1, q);
    assert d == 32 * e5;
  }

  lemma SameModulo(a: int, b: int)
    requires a % 32 == (a + b) % 32
    ensures b % 32 == 0
  {}

  lemma ValuesDiffer(c: char, d: char)
    requires IsSymbol(c) && IsSymbol(d) && c != d
    ensures Value(c) != Value(d) && -32 < Value(c) - Value(d) < 32
  {}

  lemma {:induction false} SumOfZeros(s: string)
    requires InAlphabet(s) && forall i :: 0 <= i < |s| ==> s[i] == '0'
    ensures Sum(s) == 0
  {
    if s != "" {
      SumOfZeros(s[..|s| - 1]);
      assert Value('0') == 0;
      NoWeight(2 * (|s| - 1) + 1);
    }
  }

  lemma NoWeight(w: int)
    ensures 0 * w == 0
  {}

  /** A payload of zeros has the check symbol `0`. */
  lemma ZerosAreAKey(s: string)
    requires |s| == KEY_SYMBOLS && forall i :: 0 <= i < |s| ==> s[i] == '0'
    ensures IsKey(s)
  {
    SumOfZeros(s[..PAYLOAD_SYMBOLS]);
  }

  /** One symbol of value `v` at place `i` among zeros weighs `v` times `2 i + 1`. */
  lemma SumOfOne(s: string, i: nat, c: char)
    requires InAlphabet(s) && (forall j :: 0 <= j < |s| ==> s[j] == '0') && i < |s| && IsSymbol(c)
    ensures InAlphabet(s[i := c]) && Sum(s[i := c]) == Value(c) * (2 * i + 1)
  {
    SumAfterChange(s, i, c);
    SumOfZeros(s);
    assert Value('0') == 0;
  }

  /** Twenty symbols with one changed are no key, whatever stands in its place. */
  lemma ChangedSymbol(s: string, i: nat, c: char)
    requires IsKey(s) && i < KEY_SYMBOLS && c != s[i]
    ensures !IsKey(s[i := c])
  {
    var t := s[i := c];
    if IsSymbol(c) {
      ValuesDiffer(c, s[i]);
      if i == PAYLOAD_SYMBOLS {
        assert t[..PAYLOAD_SYMBOLS] == s[..PAYLOAD_SYMBOLS];
      } else {
        var p := s[..PAYLOAD_SYMBOLS];
        assert t[..PAYLOAD_SYMBOLS] == p[i := c];
        SumAfterChange(p, i, c);
        var d := Value(c) - Value(s[i]);
        if (Sum(p) + d * (2 * i + 1)) % 32 == Sum(p) % 32 {
          SameModulo(Sum(p), d * (2 * i + 1));
          SmallOddMultiple(d, i);
        }
      }
    } else {
      assert !IsSymbol(t[i]);
    }
  }

  /** How many symbols stand before the character typed at `i`. */
  function Place(raw: string, i: nat): nat
    requires i <= |raw|
  {
    |Normalized(raw[..i])|
  }

  predicate TypesSymbol(c: char) { |NormalChar(c)| == 1 }

  lemma RetypedAt(raw: string, i: nat, c: char)
    requires i < |raw|
    ensures Normalized(raw[i := c]) == Normalized(raw[..i]) + NormalChar(c) + Normalized(raw[i + 1..])
  {
    hide *;
    assert raw[i := c] == (raw[..i] + [c]) + raw[i + 1..];
    NormalizedConcat(raw[..i] + [c], raw[i + 1..]);
    NormalizedLast(raw[..i], c);
  }

  /** A typed symbol is found at its place, and retyping it replaces that symbol alone. */
  lemma RetypedSymbol(raw: string, i: nat, c: char)
    requires i < |raw| && TypesSymbol(raw[i]) && TypesSymbol(c)
    ensures Place(raw, i) < |Normalized(raw)| && [Normalized(raw)[Place(raw, i)]] == NormalChar(raw[i])
    ensures Normalized(raw[i := c]) == Normalized(raw)[Place(raw, i) := NormalChar(c)[0]]
  {
    RetypedAt(raw, i, raw[i]);
    RetypedAt(raw, i, c);
    assert raw[i := raw[i]] == raw;
    hide Normalized, NormalChar;
    OneInTheMiddle(Normalized(raw[..i]), NormalChar(raw[i]), NormalChar(c), Normalized(raw[i + 1..]));
  }

  lemma OneInTheMiddle(a: string, x: string, y: string, b: string)
    requires |x| == 1 && |y| == 1
    ensures |a| < |a + x + b| && [(a + x + b)[|a|]] == x && (a + x + b)[|a| := y[0]] == a + y + b
  {}

  lemma NormalCharLength(c: char)
    ensures |NormalChar(c)| <= 1
  {}

  /**
   * Of the characters typed for a valid key, changing any one to any other keeps it valid exactly when both read as the
   * same symbol or both read as nothing. So every change of a symbol is caught.
   */
  lemma EverySubstitutionIsCaught(raw: string, i: nat, c: char)
    requires IsKey(Normalized(raw)) && i < |raw|
    ensures IsKey(Normalized(raw[i := c])) <==> NormalChar(c) == NormalChar(raw[i])
  {
    var s := Normalized(raw);
    RetypedAt(raw, i, raw[i]);
    RetypedAt(raw, i, c);
    assert raw[i := raw[i]] == raw;
    NormalCharLength(raw[i]);
    NormalCharLength(c);
    assert forall t :: IsKey(t) ==> |t| == |s|;
    hide Normalized, NormalChar, IsKey;
    if TypesSymbol(raw[i]) && TypesSymbol(c) && NormalChar(c) != NormalChar(raw[i]) {
      RetypedSymbol(raw, i, c);
      assert NormalChar(c) == [NormalChar(c)[0]];
      KeyParts(s);
      ChangedSymbol(s, Place(raw, i), NormalChar(c)[0]);
    }
  }

  function Swapped(s: string, i: nat, j: nat): string
    requires i < |s| && j < |s|
  {
    s[i := s[j]][j := s[i]]
  }

  /** The distance in value times the distance in place. */
  function Cross(values: int, places: int): int { values * places }

  lemma SymbolAt(s: string, i: nat)
    requires InAlphabet(s) && i < |s|
    ensures IsSymbol(s[i])
  {}

  lemma SwapSum(s: string, i: nat, j: nat)
    requires InAlphabet(s) && i < |s| && j < |s| && i != j
    ensures InAlphabet(Swapped(s, i, j))
    ensures Sum(Swapped(s, i, j)) == Sum(s) - 2 * Cross(Value(s[i]) - Value(s[j]), i - j)
  {
    hide *;
    SymbolAt(s, i);
    SymbolAt(s, j);
    SumAfterChange(s, i, s[j]);
    SecondChange(s, i, j);
    ShiftsCancel(Value(s[i]), Value(s[j]), i, j);
  }

  lemma SecondChange(s: string, i: nat, j: nat)
    requires InAlphabet(s) && i < |s| && j < |s| && i != j && InAlphabet(s[i := s[j]])
    ensures InAlphabet(Swapped(s, i, j))
    ensures Sum(Swapped(s, i, j)) == Sum(s[i := s[j]]) + Shift(Value(s[i]) - Value(s[j]), j)
  {
    var t := s[i := s[j]];
    assert t[j] == s[j] && Swapped(s, i, j) == t[j := s[i]] && IsSymbol(s[i]);
    hide *;
    SumAfterChange(t, j, s[i]);
  }

  lemma ShiftsCancel(a: int, b: int, i: int, j: int)
    ensures Shift(b - a, i) + Shift(a - b, j) == -2 * Cross(a - b, i - j)
  {
    CrossWeights(a - b, i, j);
  }

  lemma CrossWeights(z: int, i: int, j: int)
    ensures (-z) * (2 * i + 1) + z * (2 * j + 1) == -2 * (z * (i - j))
  {
    Distribute(0, z, 2 * i + 1);
    Distribute(2 * i, -1, z);
    Distribute(2 * j, -1, z);
    Distribute(i, j, z);
    Regroup(2, i, z);
    Regroup(2, j, z);
  }

  lemma HalfModulo(x: int, y: int)
    ensures (x - 2 * y) % 32 == x % 32 <==> y % 16 == 0
  {
    if y % 16 == 0 {
      var k := y / 16;
      assert x - 2 * y == x - 32 * k;
    }
  }

  /** The distance in value times the distance in place is a multiple of 16. */
  predicate SixteenApart(s: string, i: nat, j: nat)
    requires InAlphabet(s) && i < |s| && j < |s|
  {
    Cross(Value(s[i]) - Value(s[j]), i - j) % 16 == 0
  }

  lemma SwappedSymbols(s: string, i: nat, j: nat)
    requires IsKey(s) && i < PAYLOAD_SYMBOLS && j < PAYLOAD_SYMBOLS && s[i] != s[j]
    ensures IsKey(Swapped(s, i, j)) <==> SixteenApart(s, i, j)
  {
    var p, t := s[..PAYLOAD_SYMBOLS], Swapped(s, i, j);
    assert t[..PAYLOAD_SYMBOLS] == Swapped(p, i, j);
    assert t[PAYLOAD_SYMBOLS] == s[PAYLOAD_SYMBOLS];
    SwapSum(p, i, j);
    HalfModulo(Sum(p), Cross(Value(s[i]) - Value(s[j]), i - j));
    assert forall k :: 0 <= k < |t| ==> IsSymbol(t[k]);
  }

  lemma SwappedNeighbours(s: string, i: nat)
    requires IsKey(s) && i + 1 < KEY_SYMBOLS && s[i] != s[i + 1]
    ensures IsKey(Swapped(s, i, i + 1)) <==>
      (Value(s[i]) - Value(s[i + 1]) == 16 || Value(s[i + 1]) - Value(s[i]) == 16)
  {
    ValuesDiffer(s[i], s[i + 1]);
    if i + 1 < PAYLOAD_SYMBOLS {
      SwappedSymbols(s, i, i + 1);
      hide Value, IsSymbol, Sum, IsKey;
      OneApart(Value(s[i]) - Value(s[i + 1]), i);
    } else {
      LastSwap(s);
    }
  }

  lemma OneApart(d: int, i: int)
    requires -32 < d < 32 && d != 0
    ensures (d * (i - (i + 1))) % 16 == 0 <==> d == 16 || d == -16
  {
    assert d * (i - (i + 1)) == -d;
  }

  lemma LastSwap(s: string)
    requires IsKey(s) && s[18] != s[19]
    ensures IsKey(Swapped(s, 18, 19)) <==> Value(s[18]) - Value(s[19]) == 16 || Value(s[19]) - Value(s[18]) == 16
  {
    ValuesDiffer(s[18], s[19]);
    hide Value, IsSymbol, Sum;
    var p, t := s[..PAYLOAD_SYMBOLS], Swapped(s, 18, 19);
    assert t[..PAYLOAD_SYMBOLS] == p[18 := s[19]] && t[PAYLOAD_SYMBOLS] == s[18];
    SumAfterChange(p, 18, s[19]);
    assert InAlphabet(t);
    CheckSwap(Sum(p), Value(s[18]), Value(s[19]));
  }

  lemma CheckSwap(sum: int, a: int, b: int)
    requires 0 <= a < 32 && 0 <= b < 32 && a != b && sum % 32 == b
    ensures (sum + (b - a) * 37) % 32 == a <==> a - b == 16 || b - a == 16
  {}

  lemma PlaceKept(raw: string, i: nat, c: char, j: nat)
    requires i < j < |raw| && TypesSymbol(raw[i]) && TypesSymbol(c)
    ensures Place(raw[i := c], j) == Place(raw, j)
  {
    assert raw[i := c][..j] == raw[..j][i := c];
    hide *;
    RetypedSymbol(raw[..j], i, c);
  }

  /** Swapping two typed symbols swaps them in the key. */
  lemma SwapAsTyped(raw: string, i: nat, j: nat)
    requires i < j < |raw| && TypesSymbol(raw[i]) && TypesSymbol(raw[j])
    ensures Place(raw, i) < Place(raw, j) < |Normalized(raw)|
    ensures [Normalized(raw)[Place(raw, i)]] == NormalChar(raw[i])
    ensures [Normalized(raw)[Place(raw, j)]] == NormalChar(raw[j])
    ensures Normalized(Swapped(raw, i, j)) == Swapped(Normalized(raw), Place(raw, i), Place(raw, j))
  {
    PlaceGrows(raw, i, j);
    hide Normalized, NormalChar, TypesSymbol, Place;
    RetypedSymbol(raw, i, raw[j]);
    RetypedSymbol(raw, j, raw[j]);
    RetypedSymbol(raw[i := raw[j]], j, raw[i]);
    PlaceKept(raw, i, raw[j], j);
  }

  lemma PlaceGrows(raw: string, i: nat, j: nat)
    requires i < j <= |raw| && TypesSymbol(raw[i])
    ensures Place(raw, i) < Place(raw, j)
  {
    assert raw[..j][..i] == raw[..i];
    hide Normalized, NormalChar;
    RetypedSymbol(raw[..j], i, raw[i]);
  }

  /** Two symbols typed in each other's place, before the check symbol: unnoticed at multiples of 16 only. */
  lemma SwapsUnnoticed(raw: string, i: nat, j: nat)
    requires IsKey(Normalized(raw)) && i < j < |raw| && TypesSymbol(raw[i]) && TypesSymbol(raw[j])
    requires NormalChar(raw[i]) != NormalChar(raw[j]) && Place(raw, j) < PAYLOAD_SYMBOLS
    ensures Place(raw, i) < Place(raw, j) && |Normalized(raw)| == KEY_SYMBOLS && InAlphabet(Normalized(raw))
    ensures IsKey(Normalized(Swapped(raw, i, j))) <==> SixteenApart(Normalized(raw), Place(raw, i), Place(raw, j))
  {
    KeyParts(Normalized(raw));
    hide *;
    SwapAsTyped(raw, i, j);
    SwappedSymbols(Normalized(raw), Place(raw, i), Place(raw, j));
  }

  /** Neighbouring symbols typed in each other's place, the check symbol included: caught unless 16 apart. */
  lemma NeighbourSwaps(raw: string, i: nat, j: nat)
    requires IsKey(Normalized(raw)) && i < j < |raw| && TypesSymbol(raw[i]) && TypesSymbol(raw[j])
    requires NormalChar(raw[i]) != NormalChar(raw[j]) && Place(raw, j) == Place(raw, i) + 1
    ensures Place(raw, j) < |Normalized(raw)| && InAlphabet(Normalized(raw))
    ensures
      var a, b := Value(Normalized(raw)[Place(raw, i)]), Value(Normalized(raw)[Place(raw, j)]);
      IsKey(Normalized(Swapped(raw, i, j))) <==> a - b == 16 || b - a == 16
  {
    KeyParts(Normalized(raw));
    hide IsKey, Normalized, NormalChar, TypesSymbol, Place, InAlphabet, Value, Swapped;
    SwapAsTyped(raw, i, j);
    SwappedNeighbours(Normalized(raw), Place(raw, i));
  }

  lemma KeyParts(s: string)
    requires IsKey(s)
    ensures |s| == KEY_SYMBOLS && InAlphabet(s)
  {}

  /** A look-alike typed for its symbol keeps a valid key valid. */
  lemma LookAlikesPass(raw: string, i: nat)
    requires IsKey(Normalized(raw)) && i < |raw| && raw[i] == '1'
    ensures IsKey(Normalized(raw[i := 'I'])) && IsKey(Normalized(raw[i := 'l']))
  {
    assert NormalChar('I') == NormalChar('1') == NormalChar('l');
    EverySubstitutionIsCaught(raw, i, 'I');
    EverySubstitutionIsCaught(raw, i, 'l');
  }
}
