/** JSON pointers (RFC 6901): how the loader walks one, and how that compares with the standard. */
module JsonPointer {
  import opened Options

  type Leaf(==, !new)

  datatype Json = Object(members: map<string, Json>) | Array(items: seq<Json>) | Scalar(leaf: Leaf)

  // --- text -------------------------------------------------------------------------------------------------------

  /** The pieces between the slashes; a text without a slash is one piece. */
  function Split(s: string): (pieces: seq<string>)
    ensures pieces != []
  {
    if s == "" then [""]
    else
      var rest := Split(s[1..]);
      if s[0] == '/' then [""] + rest else [[s[0]] + rest[0]] + rest[1..]
  }

  /** Each pair `first second`, from left to right, becomes `one`. */
  function Replace(s: string, first: char, second: char, one: char): string {
    if |s| < 2 then s
    else if s[0] == first && s[1] == second then [one] + Replace(s[2..], first, second, one)
    else [s[0]] + Replace(s[1..], first, second, one)
  }

  predicate IsDigits(s: string) {
    s != "" && forall k :: 0 <= k < |s| ==> '0' <= s[k] <= '9'
  }

  function Number(s: string): nat
    requires forall k :: 0 <= k < |s| ==> '0' <= s[k] <= '9'
  {
    if s == "" then 0 else Number(s[..|s| - 1]) * 10 + (s[|s| - 1] as int - '0' as int)
  }

  // --- the loader's walk ------------------------------------------------------------------------------------------

  function Unescape(raw: string): string {
    Replace(Replace(raw, '~', '1', '/'), '~', '0', '~')
  }

  /** One part of the pointer, taken from one value. */
  function Enter(current: Json, part: string): Option<Json> {
    if current.Object? && part in current.members then Some(current.members[part])
    else if current.Array? && IsDigits(part) && Number(part) < |current.items| then Some(current.items[Number(part)])
    else None
  }

  function WalkParts(unquote: string -> string, current: Json, raws: seq<string>): Option<Json> {
    if raws == [] then Some(current)
    else match Enter(current, Unescape(unquote(raws[0])))
      case None => None
      case Some(next) => WalkParts(unquote, next, raws[1..])
  }

  function Walk(unquote: string -> string, document: Json, pointer: string): Option<Json> {
    if pointer == "" then Some(document)
    else if pointer[0] != '/' then None
    else WalkParts(unquote, document, Split(pointer)[1..])
  }

  /** The walk as a loop over the parts. */
  method WalkPointer(unquote: string -> string, document: Json, pointer: string) returns (value: Option<Json>)
    ensures value == Walk(unquote, document, pointer)
  {
    if pointer == "" {
      return Some(document);
    }
    if pointer[0] != '/' {
      return None;
    }
    var current, raws := document, Split(pointer)[1..];
    for i := 0 to |raws|
      invariant WalkParts(unquote, current, raws[i..]) == WalkParts(unquote, document, raws)
    {
      assert raws[i..][0] == raws[i] && raws[i..][1..] == raws[i + 1..];
      var part := Replace(Replace(unquote(raws[i]), '~', '1', '/'), '~', '0', '~');
      if current.Object? && part in current.members {
        current := current.members[part];
      } else if current.Array? && IsDigits(part) && Number(part) < |current.items| {
        current := current.items[Number(part)];
      } else {
        return None;
      }
    }
    value := Some(current);
  }

  // --- pointers as the standard writes them: sections 3 and 4 of RFC 6901 -----------------------------------------

  /** One step into a value: a member by its name or an element by its index. */
  datatype Step = Member(name: string) | Element(index: nat)

  function StepInto(value: Json, step: Step): Option<Json> {
    match step
    case Member(name) => if value.Object? && name in value.members then Some(value.members[name]) else None
    case Element(index) => if value.Array? && index < |value.items| then Some(value.items[index]) else None
  }

  function At(value: Json, path: seq<Step>): Option<Json> {
    if path == [] then Some(value)
    else match StepInto(value, path[0])
      case None => None
      case Some(next) => At(next, path[1..])
  }

  function EscapedChar(c: char): string {
    if c == '~' then "~0" else if c == '/' then "~1" else [c]
  }

  function Escape(token: string): string {
    if token == "" then "" else EscapedChar(token[0]) + Escape(token[1..])
  }

  function Digit(d: nat): (c: char)
    requires d < 10
    ensures '0' <= c <= '9' && c as int - '0' as int == d && (c == '0' <==> d == 0)
  {
    ('0' as int + d) as char
  }

  function Decimal(n: nat): string {
    if n < 10 then [Digit(n)] else Decimal(n / 10) + [Digit(n % 10)]
  }

  function Token(step: Step): string {
    match step
    case Member(name) => name
    case Element(index) => Decimal(index)
  }

  function Render(path: seq<Step>): string {
    if path == [] then "" else "/" + Escape(Token(path[0])) + Render(path[1..])
  }

  // --- the round trip -----------------------------------------------------------------------------------------------

  /** Only the tildes escaped: what is left after the first of the two replacements. */
  function HalfEscape(token: string): string {
    if token == "" then "" else (if token[0] == '~' then "~0" else [token[0]]) + HalfEscape(token[1..])
  }

  /** What each of the two replacements does to one escaped character and what follows it. */
  lemma ReplaceAtEscaped(c: char, rest: string)
    ensures Replace(EscapedChar(c) + rest, '~', '1', '/') == (if c == '~' then "~0" else [c]) + Replace(rest, '~', '1', '/')
    ensures Replace(EscapedChar(c) + rest, '~', '0', '~') == (if c == '/' then "~1" else [c]) + Replace(rest, '~', '0', '~')
  {
    var s := EscapedChar(c) + rest;
    if c == '~' || c == '/' {
      assert s[2..] == rest && s[1..] == [s[1]] + rest && s[1..][1..] == rest;
    } else {
      assert s[1..] == rest;
    }
  }

  lemma {:induction false} FirstReplacement(token: string)
    ensures Replace(Escape(token), '~', '1', '/') == HalfEscape(token)
  {
    if token != "" {
      hide Replace, EscapedChar;
      FirstReplacement(token[1..]);
      ReplaceAtEscaped(token[0], Escape(token[1..]));
    }
  }

  lemma {:induction false} SecondReplacement(token: string)
    ensures Replace(HalfEscape(token), '~', '0', '~') == token
  {
    if token != "" {
      var rest := HalfEscape(token[1..]);
      SecondReplacement(token[1..]);
      assert token == [token[0]] + token[1..];
      if token[0] == '~' {
        assert HalfEscape(token) == ['~', '0'] + rest && HalfEscape(token)[2..] == rest;
      } else {
        assert HalfEscape(token) == [token[0]] + rest && HalfEscape(token)[1..] == rest;
      }
    }
  }

  /** Undoing `~1` before `~0` inverts the escape (section 4 of RFC 6901). */
  lemma UnescapeInvertsEscape(token: string)
    ensures Unescape(Escape(token)) == token
  {
    FirstReplacement(token);
    SecondReplacement(token);
  }

  /** Only the slashes escaped: what is left when `~0` is replaced first. */
  function SlashEscape(token: string): string {
    if token == "" then "" else (if token[0] == '/' then "~1" else [token[0]]) + SlashEscape(token[1..])
  }

  lemma {:induction false} TildesFirst(token: string)
    ensures Replace(Escape(token), '~', '0', '~') == SlashEscape(token)
  {
    if token != "" {
      hide Replace, EscapedChar;
      TildesFirst(token[1..]);
      ReplaceAtEscaped(token[0], Escape(token[1..]));
    }
  }

  /** The slashes that were escaped come back, and so does every `~1` the token had itself. */
  lemma {:induction false} SlashesSecond(token: string)
    ensures Replace(SlashEscape(token), '~', '1', '/') == Replace(token, '~', '1', '/')
  {
    if token != "" {
      var rest := SlashEscape(token[1..]);
      SlashesSecond(token[1..]);
      if token[0] == '/' {
        assert SlashEscape(token) == ['~', '1'] + rest && SlashEscape(token)[2..] == rest;
      } else {
        assert SlashEscape(token) == [token[0]] + rest && SlashEscape(token)[1..] == rest;
        if HasPair(token, 0) {
          SlashesSecond(token[2..]);
          assert token[1..][1..] == token[2..];
          assert rest == ['1'] + SlashEscape(token[2..]) && rest[1..] == SlashEscape(token[2..]);
          assert SlashEscape(token)[2..] == rest[1..];
        }
      }
    }
  }

  predicate HasPair(token: string, i: int) {
    0 <= i < |token| - 1 && token[i] == '~' && token[i + 1] == '1'
  }

  /** Replacing `~1` shortens the tokens that have it, and leaves the others as they are. */
  lemma {:induction false} ReplacingPairs(token: string)
    ensures |Replace(token, '~', '1', '/')| <= |token|
    ensures (forall i :: !HasPair(token, i)) ==> Replace(token, '~', '1', '/') == token
    ensures (exists i :: HasPair(token, i)) ==> |Replace(token, '~', '1', '/')| < |token|
  {
    if token != "" {
      if HasPair(token, 0) {
        ReplacingPairs(token[2..]);
      } else {
        ReplacingPairs(token[1..]);
        assert token == [token[0]] + token[1..];
        forall i | HasPair(token, i) ensures HasPair(token[1..], i - 1) {
        }
        forall i | HasPair(token[1..], i) ensures HasPair(token, i + 1) {
        }
      }
    }
  }

  /** The other order of the two replacements inverts the escape of exactly those tokens that have no `~1`. */
  lemma OtherOrderInvertsIff(token: string)
    ensures Replace(Replace(Escape(token), '~', '0', '~'), '~', '1', '/') == token
       <==> forall i :: 0 <= i < |token| - 1 ==> !(token[i] == '~' && token[i + 1] == '1')
  {
    TildesFirst(token);
    SlashesSecond(token);
    ReplacingPairs(token);
    if i :| 0 <= i < |token| - 1 && token[i] == '~' && token[i + 1] == '1' {
      assert HasPair(token, i);
    }
  }

  lemma {:induction false} EscapedHasNoSlash(token: string)
    ensures forall k :: 0 <= k < |Escape(token)| ==> Escape(token)[k] != '/'
    ensures '%' !in token ==> '%' !in Escape(token)
  {
    if token != "" {
      EscapedHasNoSlash(token[1..]);
    }
  }

  lemma {:induction false} SplitsAfter(piece: string, rest: string)
    requires forall k :: 0 <= k < |piece| ==> piece[k] != '/'
    ensures Split(piece + "/" + rest) == [piece] + Split(rest)
  {
    var s := piece + "/" + rest;
    if piece == "" {
      assert s == "/" + rest && s[1..] == rest;
    } else {
      SplitsAfter(piece[1..], rest);
      assert s[1..] == piece[1..] + "/" + rest;
      assert [piece[0]] + piece[1..] == piece;
    }
  }

  lemma {:induction false} SplitWhole(piece: string)
    requires forall k :: 0 <= k < |piece| ==> piece[k] != '/'
    ensures Split(piece) == [piece]
  {
    if piece != "" {
      SplitWhole(piece[1..]);
      assert [piece[0]] + piece[1..] == piece;
    }
  }

  function Escaped(path: seq<Step>): seq<string> {
    if path == [] then [] else [Escape(Token(path[0]))] + Escaped(path[1..])
  }

  /** A piece, then nothing or more that begins with a slash. */
  lemma SplitsAtFirst(piece: string, more: string)
    requires forall k :: 0 <= k < |piece| ==> piece[k] != '/'
    requires more == "" || more[0] == '/'
    ensures Split(piece + more) == [piece] + Split(more)[1..]
  {
    hide Split;
    if more == "" {
      SplitWhole(piece);
      SplitWhole(more);
      assert piece + more == piece;
    } else {
      var rest := more[1..];
      SplitsAfter(piece, rest);
      SlashFirst(rest);
      SlashInBetween(piece, more, rest);
    }
  }

  lemma SlashInBetween(piece: string, more: string, rest: string)
    requires more != "" && more[0] == '/' && rest == more[1..]
    ensures more == "/" + rest && piece + more == piece + "/" + rest
  {
  }

  lemma {:induction false} RenderedSplits(path: seq<Step>)
    ensures Render(path) != "" ==> Render(path)[0] == '/'
    ensures path != [] ==> Render(path) != ""
    ensures Split(Render(path))[1..] == Escaped(path)
  {
    if path != [] {
      var first, more := Escape(Token(path[0])), Render(path[1..]);
      EscapedHasNoSlash(Token(path[0]));
      RenderedSplits(path[1..]);
      SplitsAtFirst(first, more);
      SlashFirst(first + more);
      hide Escape, Token, Split;
      assert Render(path) == "/" + (first + more);
    }
  }

  lemma SlashFirst(rest: string)
    ensures Split("/" + rest)[1..] == Split(rest)
  {
    var s := "/" + rest;
    assert s[1..] == rest;
  }

  lemma NumberPush(front: string, last: char)
    requires IsDigits(front) && '0' <= last <= '9'
    ensures IsDigits(front + [last]) && Number(front + [last]) == Number(front) * 10 + (last as int - '0' as int)
  {
    var s := front + [last];
    assert s[..|s| - 1] == front && s[|s| - 1] == last;
  }

  lemma DigitReads(d: nat)
    requires d < 10
    ensures IsDigits([Digit(d)]) && Number([Digit(d)]) == d
  {
    assert [Digit(d)][..0] == "";
  }

  lemma {:induction false} DecimalReadsBack(n: nat)
    ensures IsDigits(Decimal(n)) && Number(Decimal(n)) == n
    ensures n > 0 ==> Decimal(n)[0] != '0'
  {
    hide Digit, IsDigits, Number;
    if n < 10 {
      DigitReads(n);
    } else {
      DecimalReadsBack(n / 10);
      IsDigitsIsNotEmpty(Decimal(n / 10));
      NumberPush(Decimal(n / 10), Digit(n % 10));
    }
  }

  lemma IsDigitsIsNotEmpty(s: string)
    requires IsDigits(s)
    ensures s != ""
  {
  }

  /** Text without a percent sign stays as it is. */
  ghost predicate LeavesPlain(unquote: string -> string) {
    forall s :: '%' !in s ==> unquote(s) == s
  }

  ghost predicate Plain(path: seq<Step>) {
    forall k :: 0 <= k < |path| ==> '%' !in Token(path[k])
  }

  lemma StepIsEntered(unquote: string -> string, value: Json, step: Step)
    requires LeavesPlain(unquote) && '%' !in Token(step) && StepInto(value, step).Some?
    ensures Enter(value, Unescape(unquote(Escape(Token(step))))) == StepInto(value, step)
  {
    UnescapeInvertsEscape(Token(step));
    EscapedHasNoSlash(Token(step));
    if step.Element? {
      DecimalReadsBack(step.index);
    }
    hide Escape, Unescape, Decimal, IsDigits, Number;
  }

  lemma {:induction false} EscapedReaches(unquote: string -> string, value: Json, path: seq<Step>)
    requires LeavesPlain(unquote) && Plain(path) && At(value, path).Some?
    ensures WalkParts(unquote, value, Escaped(path)) == At(value, path)
    decreases path
  {
    hide Escape, Unescape, Token, StepInto, Enter, LeavesPlain;
    if path != [] {
      StepIsEntered(unquote, value, path[0]);
      assert Escaped(path)[0] == Escape(Token(path[0])) && Escaped(path)[1..] == Escaped(path[1..]);
      EscapedReaches(unquote, StepInto(value, path[0]).value, path[1..]);
    }
  }

  /** The round trip: the walk along the standard's rendering of a path ends at the value of that path. */
  lemma RenderedPathIsReached(unquote: string -> string, document: Json, path: seq<Step>)
    requires LeavesPlain(unquote) && Plain(path) && At(document, path).Some?
    ensures Walk(unquote, document, Render(path)) == At(document, path)
  {
    if path != [] {
      RenderedSplits(path);
      EscapedReaches(unquote, document, path);
      hide Escaped, Split, WalkParts, At;
      assert Render(path) != "";
    }
  }

  // --- the walk, for every text ------------------------------------------------------------------------------------

  /** The parts of a pointer, each with its slash before it. */
  function Join(parts: seq<string>): string {
    if parts == [] then "" else "/" + parts[0] + Join(parts[1..])
  }

  ghost predicate SlashFree(parts: seq<string>) {
    forall k :: 0 <= k < |parts| ==> '/' !in parts[k]
  }

  /** `next` is the member or the element of `value` that this text names. */
  ghost predicate Names(part: string, value: Json, next: Json) {
    || (value.Object? && part in value.members && next == value.members[part])
    || (value.Array? && part != "" && (forall k :: 0 <= k < |part| ==> '0' <= part[k] <= '9')
        && Number(part) < |value.items| && next == value.items[Number(part)])
  }

  /** Values that the parts lead through, one after the other. */
  ghost predicate Trail(unquote: string -> string, parts: seq<string>, values: seq<Json>) {
    && |values| == |parts| + 1
    && forall k :: 0 <= k < |parts| ==> Names(Unescape(unquote(parts[k])), values[k], values[k + 1])
  }

  lemma {:induction false} SplitIsJoined(s: string)
    ensures SlashFree(Split(s)) && Split(s)[0] + Join(Split(s)[1..]) == s
  {
    if s != "" {
      var rest := Split(s[1..]);
      SplitIsJoined(s[1..]);
      if s[0] == '/' {
        assert Split(s) == [""] + rest && Split(s)[0] == "" && Split(s)[1..] == rest;
        hide Split;
        OneCharMore(s, rest[0], Join(rest[1..]));
      } else {
        assert Split(s)[0] == [s[0]] + rest[0] && Split(s)[1..] == rest[1..];
        hide Split, Join;
        OneCharMore(s, rest[0], Join(rest[1..]));
        FirstPieceGrows(s[0], rest, Split(s));
      }
    }
  }

  lemma OneCharMore(s: string, first: string, more: string)
    requires s != "" && first + more == s[1..]
    ensures [s[0]] + first + more == s
  {
    assert [s[0]] + first + more == [s[0]] + (first + more);
  }

  lemma FirstPieceGrows(c: char, rest: seq<string>, pieces: seq<string>)
    requires c != '/' && rest != [] && SlashFree(rest)
    requires pieces != [] && pieces[0] == [c] + rest[0] && pieces[1..] == rest[1..]
    ensures SlashFree(pieces)
  {
    assert forall k :: 1 <= k < |pieces| ==> pieces[k] == pieces[1..][k - 1] == rest[1..][k - 1] == rest[k];
  }

  lemma {:induction false} JoinedSplits(parts: seq<string>)
    requires SlashFree(parts)
    ensures Join(parts) != "" <==> parts != []
    ensures parts != [] ==> Join(parts)[0] == '/'
    ensures Split(Join(parts))[1..] == parts
  {
    if parts != [] {
      var more := Join(parts[1..]);
      assert '/' !in parts[0];
      JoinedSplits(parts[1..]);
      SplitsAtFirst(parts[0], more);
      SlashFirst(parts[0] + more);
      hide Split;
      assert Join(parts) == "/" + (parts[0] + more);
    }
  }

  lemma EnteredIsNamed(part: string, value: Json, next: Json)
    ensures Enter(value, part) == Some(next) <==> Names(part, value, next)
  {
  }

  lemma {:induction false} PartsLeaveATrail(unquote: string -> string, value: Json, parts: seq<string>)
    returns (values: seq<Json>)
    requires WalkParts(unquote, value, parts).Some?
    ensures Trail(unquote, parts, values) && values[0] == value
    ensures values[|parts|] == WalkParts(unquote, value, parts).value
    decreases parts
  {
    hide Enter, Unescape, Names;
    if parts == [] {
      values := [value];
    } else {
      var next := Enter(value, Unescape(unquote(parts[0]))).value;
      EnteredIsNamed(Unescape(unquote(parts[0])), value, next);
      var later := PartsLeaveATrail(unquote, next, parts[1..]);
      values := [value] + later;
      forall k | 0 <= k < |parts| ensures Names(Unescape(unquote(parts[k])), values[k], values[k + 1]) {
        if k > 0 {
          assert Names(Unescape(unquote(parts[1..][k - 1])), later[k - 1], later[k - 1 + 1]);
        }
      }
    }
  }

  lemma {:induction false} TrailIsWalked(unquote: string -> string, parts: seq<string>, values: seq<Json>)
    requires Trail(unquote, parts, values)
    ensures WalkParts(unquote, values[0], parts) == Some(values[|parts|])
    decreases parts
  {
    hide Enter, Unescape, Names;
    if parts != [] {
      assert Names(Unescape(unquote(parts[0])), values[0], values[0 + 1]);
      EnteredIsNamed(Unescape(unquote(parts[0])), values[0], values[1]);
      forall k | 0 <= k < |parts| - 1
        ensures Names(Unescape(unquote(parts[1..][k])), values[1..][k], values[1..][k + 1])
      {
        assert Names(Unescape(unquote(parts[k + 1])), values[k + 1], values[k + 1 + 1]);
      }
      TrailIsWalked(unquote, parts[1..], values[1..]);
    }
  }

  /**
   * The walk exactly, for every text: it ends at a value if and only if the text is parts with a slash before each, and
   * these parts, decoded, lead from the document to that value step by step.
   */
  lemma WalkIsExact(unquote: string -> string, document: Json, pointer: string, value: Json)
    ensures Walk(unquote, document, pointer) == Some(value)
       <==> exists parts, values :: SlashFree(parts) && pointer == Join(parts) && Trail(unquote, parts, values)
                                    && values[0] == document && values[|parts|] == value
  {
    if Walk(unquote, document, pointer) == Some(value) {
      var parts: seq<string>, values: seq<Json> := [], [document];
      if pointer != "" {
        SplitIsJoined(pointer);
        PointerBegins(pointer);
        parts := Split(pointer)[1..];
        hide Split, WalkParts;
        assert SlashFree(parts) && "" + Join(parts) == Join(parts);
        values := PartsLeaveATrail(unquote, document, parts);
      }
      assert SlashFree(parts) && pointer == Join(parts) && Trail(unquote, parts, values);
    }
    if parts, values :| SlashFree(parts) && pointer == Join(parts) && Trail(unquote, parts, values)
                        && values[0] == document && values[|parts|] == value
    {
      JoinedSplits(parts);
      TrailIsWalked(unquote, parts, values);
    }
  }

  lemma PointerBegins(pointer: string)
    ensures pointer != "" && pointer[0] == '/' ==> Split(pointer)[0] == ""
  {
  }

  // --- where the loader is laxer than the standard -----------------------------------------------------------------

  /** Section 4 of RFC 6901: an index is zero, or digits that do not begin with a zero. */
  predicate IsIndex(s: string) {
    IsDigits(s) && (s == "0" || s[0] != '0')
  }

  function EnterStrictly(current: Json, part: string): Option<Json> {
    if current.Object? && part in current.members then Some(current.members[part])
    else if current.Array? && IsIndex(part) && Number(part) < |current.items| then Some(current.items[Number(part)])
    else None
  }

  /**
   * The loader takes a step differently from the standard exactly when it enters an array with an index written with
   * a leading zero; `01` then means the second element instead of an error.
   */
  lemma LaxOnLeadingZeros(current: Json, part: string)
    ensures Enter(current, part) != EnterStrictly(current, part)
       <==> current.Array? && IsDigits(part) && Number(part) < |current.items| && |part| > 1 && part[0] == '0'
    ensures Enter(Array([current, current]), "01") == Some(current) && EnterStrictly(Array([current, current]), "01") == None
  {
    var zeroOne := "01";
    assert zeroOne[..1] == "0" && "0"[..0] == "";
    assert Number(zeroOne) == 1;
    if |part| == 1 && part[0] == '0' {
      assert part == "0";
    }
  }
}
