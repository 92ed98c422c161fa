/** Identifiers that sort by creation time: base 32 digits of a time and a random part. */
module Ulid {
  import opened Options

  const ALPHABET: string := "0123456789abcdefghjkmnpqrstvwxyz"
  const ULID_LENGTH: nat := 26
  const RANDOM_RANGE: nat := 0x1_0000_0000_0000_0000_0000  // 2^80
  const TIME_RANGE: nat := 0x4_0000_0000_0000  // 2^50: what 26 digits leave for the time

  datatype Kind = Agency | Client | Scan | Key

  function Prefix(kind: Kind): string {
    match kind case Agency => "ag" case Client => "cli" case Scan => "scn" case Key => "key"
  }

  // --- digits --------------------------------------------------------------------------------------------------------

  type DigitValue = d: int | 0 <= d < 32

  function CharOf(d: DigitValue): char {
    if d < 10 then '0' + d as char
    else if d < 18 then 'a' + (d - 10) as char
    else if d < 20 then 'j' + (d - 18) as char
    else if d < 22 then 'm' + (d - 20) as char
    else if d < 27 then 'p' + (d - 22) as char
    else 'v' + (d - 27) as char
  }

  /** The character class of the id patterns. */
  predicate IsUlidChar(c: char) {
    || '0' <= c <= '9' || 'a' <= c <= 'h' || c == 'j' || c == 'k' || c == 'm' || c == 'n' || 'p' <= c <= 't' || 'v' <= c <= 'z'
  }

  function IndexOf(c: char): Option<DigitValue> {
    if '0' <= c <= '9' then Some(c as int - '0' as int)
    else if 'a' <= c <= 'h' then Some(c as int - 'a' as int + 10)
    else if 'j' <= c <= 'k' then Some(c as int - 'j' as int + 18)
    else if 'm' <= c <= 'n' then Some(c as int - 'm' as int + 20)
    else if 'p' <= c <= 't' then Some(c as int - 'p' as int + 22)
    else if 'v' <= c <= 'z' then Some(c as int - 'v' as int + 27)
    else None
  }

  lemma CharsAreDigits(d: DigitValue, e: DigitValue)
    ensures IsUlidChar(CharOf(d)) && IndexOf(CharOf(d)) == Some(d)
    ensures CharOf(d) < CharOf(e) <==> d < e
  {
  }

  /** The digits really are the positions in the alphabet. */
  lemma AlphabetIs(d: DigitValue)
    ensures |ALPHABET| == 32 && ALPHABET[d] == CharOf(d)
  {
  }

  /** The last `n` base 32 digits of a number, most significant first. */
  function Digits(value: int, n: nat): (s: string)
    ensures |s| == n
    decreases n
  {
    if n == 0 then "" else Digits(value / 32, n - 1) + [CharOf(value % 32)]
  }

  /** The number that base 32 digits spell; None for a character outside the alphabet. */
  function Value(s: string): Option<nat> {
    if s == "" then Some(0)
    else match (Value(s[..|s| - 1]), IndexOf(s[|s| - 1]))
      case (Some(high), Some(d)) => Some(high * 32 + d)
      case _ => None
  }

  function Range(n: nat): (r: nat)
    ensures r > 0
  {
    if n == 0 then 1 else 32 * Range(n - 1)
  }

  // --- ids ---------------------------------------------------------------------------------------------------------

  type Random = r: int | 0 <= r < RANDOM_RANGE

  function NewUlid(millis: int, random: Random): (ulid: string)
    ensures |ulid| == ULID_LENGTH
  {
    Digits(millis * RANDOM_RANGE + random, ULID_LENGTH)
  }

  function NewId(kind: Kind, millis: int, random: Random): string {
    Prefix(kind) + "_" + NewUlid(millis, random)
  }

  predicate IsUlid(s: string) {
    |s| == ULID_LENGTH && forall k :: 0 <= k < |s| ==> IsUlidChar(s[k])
  }

  predicate IsId(kind: Kind, s: string) {
    |s| == |Prefix(kind)| + 1 + ULID_LENGTH && s[..|Prefix(kind)|] == Prefix(kind) && s[|Prefix(kind)|] == '_'
    && IsUlid(s[|Prefix(kind)| + 1..])
  }

  /** The pattern ends in `$`, which also matches before a final line break. */
  predicate IsValid(kind: Kind, s: string) {
    IsId(kind, s) || (s != "" && s[|s| - 1] == '\n' && IsId(kind, s[..|s| - 1]))
  }

  /** What follows the last underscore; None when there is none. */
  function AfterUnderscore(s: string): Option<string> {
    if s == "" then None
    else if s[|s| - 1] == '_' then Some("")
    else match AfterUnderscore(s[..|s| - 1])
      case None => None
      case Some(rest) => Some(rest + [s[|s| - 1]])
  }

  /** None where reading the time raises. */
  function CreatedMs(s: string): Option<nat> {
    match AfterUnderscore(s)
    case None => None
    case Some(ulid) =>
      match Value(ulid)
      case None => None
      case Some(number) => Some(number / RANDOM_RANGE)
  }

  // --- the loops ---------------------------------------------------------------------------------------------------

  method MakeUlid(millis: int, random: Random) returns (ulid: string)
    ensures ulid == NewUlid(millis, random)
  {
    hide Digits, CharOf;
    var value := millis * RANDOM_RANGE + random;
    ghost var whole := Digits(value, ULID_LENGTH);
    var chars: string := "";
    for i := 0 to ULID_LENGTH
      invariant |chars| == i && whole == Digits(value, ULID_LENGTH - i) + Reversed(chars)
    {
      var c := CharOf(value % 32);
      LastDigit(value, ULID_LENGTH - i);
      assert Reversed(chars + [c]) == [c] + Reversed(chars);
      chars := chars + [c];
      value := value / 32;
    }
    ulid := Reversed(chars);
  }

  lemma LastDigit(value: int, n: nat)
    requires n > 0
    ensures Digits(value, n) == Digits(value / 32, n - 1) + [CharOf(value % 32)]
  {
  }

  function Reversed(s: string): (r: string)
    ensures |r| == |s| && forall k :: 0 <= k < |s| ==> r[k] == s[|s| - 1 - k]
  {
    seq(|s|, k requires 0 <= k < |s| => s[|s| - 1 - k])
  }

  method ReadNumber(ulid: string) returns (number: Option<nat>)
    ensures number == Value(ulid)
  {
    var n := 0;
    for i := 0 to |ulid|
      invariant Value(ulid[..i]) == Some(n)
    {
      assert ulid[..i + 1][..i] == ulid[..i];
      var d := IndexOf(ulid[i]);
      if d.None? {
        NoValue(ulid, i + 1);
        return None;
      }
      n := n * 32 + d.value as int;
    }
    assert ulid[..|ulid|] == ulid;
    number := Some(n);
  }

  lemma {:induction false} NoValue(s: string, n: nat)
    requires n <= |s| && Value(s[..n]) == None
    ensures Value(s) == None
  {
    if n == |s| {
      assert s[..n] == s;
    } else {
      assert s[..|s| - 1][..n] == s[..n];
      NoValue(s[..|s| - 1], n);
    }
  }

  // --- the time is recovered ---------------------------------------------------------------------------------------

  lemma MultipleIsFar(divisor: int, k: int)
    requires divisor > 0
    ensures k == 0 || divisor * k >= divisor || divisor * k <= -divisor
  {
    if k >= 1 {
      assert divisor * (k - 1) >= 0;
    } else if k <= -1 {
      assert divisor * (-k - 1) >= 0;
    }
  }

  lemma DivMod(value: int, quotient: int, divisor: int, rest: int)
    requires value == divisor * quotient + rest && 0 <= rest < divisor
    ensures value / divisor == quotient && value % divisor == rest
  {
    var q, r := value / divisor, value % divisor;
    Distributes(divisor, q, quotient);
    MultipleIsFar(divisor, q - quotient);
  }

  lemma Distributes(a: int, x: int, y: int)
    ensures a * (x - y) == a * x - a * y
  {
  }

  lemma {:induction false} DigitsSpell(value: int, n: nat)
    ensures Value(Digits(value, n)) == Some(value % Range(n))
    decreases n
  {
    if n > 0 {
      hide Digits, Value, CharOf, Range;
      DigitsSpell(value / 32, n - 1);
      LastDigit(value, n);
      LowDigits(value, n);
      OneDigitPushed(Digits(value / 32, n - 1), value / 32 % Range(n - 1), value % 32);
    } else {
      NoDigits(value);
    }
  }

  lemma LowDigits(value: int, n: nat)
    requires n > 0
    ensures value % Range(n) == value / 32 % Range(n - 1) * 32 + value % 32
  {
    var p := Range(n - 1);
    assert Range(n) == 32 * p;
    hide Range;
    OneMoreDigit(value / 32, value % 32, p);
    assert 32 * (value / 32) + value % 32 == value;
  }

  lemma NoDigits(value: int)
    ensures Value(Digits(value, 0)) == Some(0) && value % Range(0) == 0
  {
  }

  lemma OneDigitPushed(s: string, number: nat, d: DigitValue)
    requires Value(s) == Some(number)
    ensures Value(s + [CharOf(d)]) == Some(number * 32 + d)
  {
    CharsAreDigits(d, d);
    hide CharOf, IndexOf;
    var longer := s + [CharOf(d)];
    assert longer[..|longer| - 1] == s;
  }

  lemma OneMoreDigit(high: int, low: int, p: nat)
    requires 0 <= low < 32 && p > 0
    ensures (32 * high + low) % (32 * p) == (high % p) * 32 + low
  {
    var q, r := high / p, high % p;
    assert high == p * q + r;
    assert 32 * (p * q) == (32 * p) * q;
    DivMod(32 * high + low, q, 32 * p, 32 * r + low);
  }

  lemma FullRange()
    ensures Range(ULID_LENGTH) == TIME_RANGE * RANDOM_RANGE
  {
    assert Range(5) == 0x200_0000 by { RangeGrows(0, 5); }
    RangeGrows(5, 5);
    RangeGrows(10, 10);
    RangeGrows(20, 5);
    RangeGrows(25, 1);
  }

  lemma {:induction false} RangeGrows(m: nat, n: nat)
    ensures Range(m + n) == Range(m) * Range(n)
  {
    if n > 0 {
      RangeGrows(m, n - 1);
      assert 32 * (Range(m) * Range(n - 1)) == Range(m) * (32 * Range(n - 1));
    }
  }

  /** What is read back from a new ULID: the time, without whatever does not fit in its 50 bits. */
  lemma UlidNumber(millis: int, random: Random)
    ensures Value(NewUlid(millis, random)) == Some(millis % TIME_RANGE * RANDOM_RANGE + random)
    ensures (millis % TIME_RANGE * RANDOM_RANGE + random) / RANDOM_RANGE == millis % TIME_RANGE
  {
    hide Value, Digits;
    DigitsSpell(millis * RANDOM_RANGE + random, ULID_LENGTH);
    FullRange();
    TimeAndRest(millis, TIME_RANGE, RANDOM_RANGE, random);
  }

  /** What a limited number of digits keeps of a time and a random part. */
  lemma TimeAndRest(millis: int, times: int, randoms: int, random: int)
    requires times > 0 && 0 <= random < randoms && times * randoms > 0
    ensures (millis * randoms + random) % (times * randoms) == millis % times * randoms + random
    ensures (millis % times * randoms + random) / randoms == millis % times
  {
    var q, r := millis / times, millis % times;
    assert millis == times * q + r;
    MultipleSplits(times, q, r, randoms);
    HigherTimeWins(r, times, randoms, random, 0);
    assert r * randoms >= 0;
    DivMod(millis * randoms + random, q, times * randoms, r * randoms + random);
    DivMod(r * randoms + random, r, randoms, random);
  }

  lemma MultipleSplits(times: int, q: int, r: int, randoms: int)
    ensures (times * q + r) * randoms == (times * randoms) * q + r * randoms
  {
    assert times * q * randoms == (times * randoms) * q;
  }

  lemma {:induction false} NoUnderscore(front: string, ulid: string)
    requires forall k :: 0 <= k < |ulid| ==> ulid[k] != '_'
    ensures AfterUnderscore(front + "_" + ulid) == Some(ulid)
  {
    var s := front + "_" + ulid;
    if ulid != "" {
      var last := |ulid| - 1;
      NoUnderscore(front, ulid[..last]);
      assert s[..|s| - 1] == front + "_" + ulid[..last];
      assert ulid[..last] + [ulid[last]] == ulid;
    }
  }

  lemma {:induction false} DigitsAreUlidChars(value: int, n: nat)
    ensures forall k :: 0 <= k < n ==> IsUlidChar(Digits(value, n)[k])
    decreases n
  {
    if n > 0 {
      DigitsAreUlidChars(value / 32, n - 1);
      CharsAreDigits(value % 32, value % 32);
    }
  }

  /** A new id matches the pattern of its kind. */
  lemma NewIdIsId(kind: Kind, millis: int, random: Random)
    ensures IsId(kind, NewId(kind, millis, random))
  {
    DigitsAreUlidChars(millis * RANDOM_RANGE + random, ULID_LENGTH);
    hide Digits;
    var prefix, ulid := Prefix(kind), NewUlid(millis, random);
    var id := prefix + "_" + ulid;
    assert id[..|prefix|] == prefix && id[|prefix| + 1..] == ulid;
  }

  /** The creation time is read back exactly when it fits in 50 bits, which it does until the year 37 000. */
  lemma TimeIsRecovered(kind: Kind, millis: int, random: Random)
    ensures CreatedMs(NewId(kind, millis, random)) == Some(millis % TIME_RANGE)
    ensures CreatedMs(NewId(kind, millis, random)) == Some(millis) <==> 0 <= millis < TIME_RANGE
  {
    DigitsAreUlidChars(millis * RANDOM_RANGE + random, ULID_LENGTH);
    hide Digits;
    NoUnderscore(Prefix(kind), NewUlid(millis, random));
    UlidNumber(millis, random);
  }

  // --- the order ---------------------------------------------------------------------------------------------------

  /** Strings compare at the first character that differs. */
  predicate Less(a: string, b: string) {
    b != "" && (a == "" || a[0] < b[0] || (a[0] == b[0] && Less(a[1..], b[1..])))
  }

  lemma {:induction false} LessAtTheEnd(a: string, b: string, x: char, y: char)
    requires |a| == |b|
    ensures Less(a + [x], b + [y]) <==> Less(a, b) || (a == b && x < y)
  {
    if a == "" {
      assert a + [x] == [x] && b + [y] == [y] && [x][1..] == "" && [y][1..] == "";
    } else {
      LessAtTheEnd(a[1..], b[1..], x, y);
      assert (a + [x])[1..] == a[1..] + [x] && (b + [y])[1..] == b[1..] + [y];
      assert a == [a[0]] + a[1..] && b == [b[0]] + b[1..];
    }
  }

  /** Among ULIDs the order of the strings is the order of their numbers. */
  lemma {:induction false} OrderIsNumeric(a: string, b: string)
    requires |a| == |b| && Value(a).Some? && Value(b).Some?
    ensures Less(a, b) <==> Value(a).value < Value(b).value
    ensures a == b <==> Value(a) == Value(b)
  {
    if a != "" {
      var n := |a| - 1;
      OrderIsNumeric(a[..n], b[..n]);
      LessAtTheEnd(a[..n], b[..n], a[n], b[n]);
      assert a == a[..n] + [a[n]] && b == b[..n] + [b[n]];
      CharsOfDigits(a[n], b[n]);
      hide IndexOf, Less;
    }
  }

  lemma CharsOfDigits(x: char, y: char)
    requires IndexOf(x).Some? && IndexOf(y).Some?
    ensures x < y <==> IndexOf(x).value < IndexOf(y).value
    ensures x == y <==> IndexOf(x).value == IndexOf(y).value
  {
  }

  lemma HigherTimeWins(a: int, b: int, range: int, r: int, s: int)
    requires a < b && 0 <= r < range && 0 <= s
    ensures a * range + r < b * range + s
  {
    MultipleGrows(a + 1, b, range);
    assert (a + 1) * range == a * range + range;
  }

  lemma MultipleGrows(a: int, b: int, range: int)
    requires a <= b && range >= 0
    ensures a * range <= b * range
  {
    assert (b - a) * range >= 0;
  }

  /** Ids sort by creation time. */
  lemma EarlierSortsFirst(earlier: int, later: int, r: Random, s: Random)
    requires 0 <= earlier < later < TIME_RANGE
    ensures Less(NewUlid(earlier, r), NewUlid(later, s))
  {
    hide NewUlid, Less, Value;
    UlidNumber(earlier, r);
    UlidNumber(later, s);
    OrderIsNumeric(NewUlid(earlier, r), NewUlid(later, s));
    DivMod(earlier, 0, TIME_RANGE, earlier);
    DivMod(later, 0, TIME_RANGE, later);
    HigherTimeWins(earlier, later, RANDOM_RANGE, r, s);
  }

  // --- where the check is laxer than the ids -----------------------------------------------------------------------

  /** Every id stays valid with a line break after it, though it is no id then and has no time to read. */
  lemma LineBreakIsValid(kind: Kind, id: string)
    requires IsId(kind, id)
    ensures IsValid(kind, id + "\n") && !IsId(kind, id + "\n") && CreatedMs(id + "\n") == None
  {
    var s := id + "\n";
    assert s[..|s| - 1] == id;
    if AfterUnderscore(id).Some? {
      var rest := AfterUnderscore(id).value + "\n";
      assert AfterUnderscore(s) == Some(rest);
      assert rest[|rest| - 1] == '\n' && IndexOf('\n') == None;
    }
  }

  lemma {:induction false} UlidCharsHaveValue(s: string)
    requires forall k :: 0 <= k < |s| ==> IsUlidChar(s[k])
    ensures Value(s).Some?
  {
    if s != "" {
      UlidCharsHaveValue(s[..|s| - 1]);
      assert IsUlidChar(s[|s| - 1]);
    }
  }

  /** An id has a time to read, and does not end in a line break. */
  lemma IdIsReadable(kind: Kind, s: string)
    requires IsId(kind, s)
    ensures CreatedMs(s).Some? && s != "" && s[|s| - 1] != '\n'
  {
    var n := |Prefix(kind)|;
    var ulid := s[n + 1..];
    assert s[|s| - 1] == ulid[|ulid| - 1] && IsUlidChar(ulid[|ulid| - 1]);
    assert s == s[..n] + "_" + ulid;
    forall k | 0 <= k < |ulid| ensures ulid[k] != '_' {
      assert IsUlidChar(ulid[k]);
    }
    NoUnderscore(s[..n], ulid);
    UlidCharsHaveValue(ulid);
    hide AfterUnderscore, Value;
  }

  /**
   * What a caller can rely on after the check: a value without a line break at its end is valid exactly when it is an
   * id, and reading the time of a valid value fails exactly when it is not one.
   */
  lemma ValidityIsExact(kind: Kind, s: string)
    ensures IsId(kind, s) <==> IsValid(kind, s) && !(s != "" && s[|s| - 1] == '\n')
    ensures IsValid(kind, s) ==> (CreatedMs(s).Some? <==> IsId(kind, s))
  {
    hide CreatedMs, IsId;
    if IsId(kind, s) {
      IdIsReadable(kind, s);
    } else if IsValid(kind, s) {
      LineBreakIsValid(kind, s[..|s| - 1]);
      assert s == s[..|s| - 1] + "\n";
    }
  }
}
