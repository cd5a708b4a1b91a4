// The nesting-depth guard on manifest bodies: one pass over the bytes, no parsing.

module JsonDepth {
  import opened Core

  const QUOTE: byte := 0x22
  const BACKSLASH: byte := 0x5C
  const OPEN_BRACE: byte := 0x7B
  const CLOSE_BRACE: byte := 0x7D
  const OPEN_BRACKET: byte := 0x5B
  const CLOSE_BRACKET: byte := 0x5D
  const COMMA: byte := 0x2C
  const COLON: byte := 0x3A

  // ---- JSON texts: trees with every choice a writer has ----

  // A character of a string literal: itself, or a backslash and what it escapes.
  datatype Char = Plain(b: byte) | Escape(b: byte)

  datatype Value =
    | Scalar(text: seq<byte>)
    | Text(chars: seq<Char>)
    | Array(space: seq<byte>, items: Items)
    | Object(space: seq<byte>, members: Members)

  datatype Items =
    | NoItems
    | Item(before: seq<byte>, value: Value, after: seq<byte>, rest: Items)

  datatype Members =
    | NoMembers
    | Member(before: seq<byte>, key: seq<Char>, colonBefore: seq<byte>, colonAfter: seq<byte>,
             value: Value, after: seq<byte>, rest: Members)

  predicate Space(s: seq<byte>) {
    forall i | 0 <= i < |s| :: s[i] == 0x20 || s[i] == 0x09 || s[i] == 0x0A || s[i] == 0x0D
  }

  predicate Structural(b: byte) {
    b == QUOTE || b == OPEN_BRACE || b == CLOSE_BRACE || b == OPEN_BRACKET || b == CLOSE_BRACKET
  }

  // Numbers and the three literal names contain no structural character.
  predicate Inert(s: seq<byte>) {
    forall i | 0 <= i < |s| :: !Structural(s[i])
  }

  predicate CharsWritten(chars: seq<Char>) {
    forall i | 0 <= i < |chars| && chars[i].Plain? :: chars[i].b != QUOTE && chars[i].b != BACKSLASH
  }

  predicate WellFormed(v: Value) {
    match v
    case Scalar(text) => Inert(text)
    case Text(chars) => CharsWritten(chars)
    case Array(space, items) => Space(space) && ItemsFormed(items)
    case Object(space, members) => Space(space) && MembersFormed(members)
  }

  predicate ItemsFormed(items: Items) {
    match items
    case NoItems => true
    case Item(before, value, after, rest) => Space(before) && WellFormed(value) && Space(after) && ItemsFormed(rest)
  }

  predicate MembersFormed(members: Members) {
    match members
    case NoMembers => true
    case Member(before, key, colonBefore, colonAfter, value, after, rest) =>
      && Space(before) && CharsWritten(key) && Space(colonBefore) && Space(colonAfter)
      && WellFormed(value) && Space(after) && MembersFormed(rest)
  }

  function RenderChars(chars: seq<Char>): seq<byte> {
    if chars == [] then []
    else (if chars[0].Plain? then [chars[0].b] else [BACKSLASH, chars[0].b]) + RenderChars(chars[1..])
  }

  function RenderText(chars: seq<Char>): seq<byte> {
    [QUOTE] + RenderChars(chars) + [QUOTE]
  }

  function Render(v: Value): seq<byte> {
    match v
    case Scalar(text) => text
    case Text(chars) => RenderText(chars)
    case Array(space, items) => [OPEN_BRACKET] + space + RenderItems(items) + [CLOSE_BRACKET]
    case Object(space, members) => [OPEN_BRACE] + space + RenderMembers(members) + [CLOSE_BRACE]
  }

  function RenderItems(items: Items): seq<byte> {
    match items
    case NoItems => []
    case Item(before, value, after, rest) =>
      before + Render(value) + after + (if rest.NoItems? then [] else [COMMA] + RenderItems(rest))
  }

  function RenderKey(before: seq<byte>, key: seq<Char>, colonBefore: seq<byte>, colonAfter: seq<byte>): seq<byte> {
    before + RenderText(key) + colonBefore + [COLON] + colonAfter
  }

  function RenderMembers(members: Members): seq<byte> {
    match members
    case NoMembers => []
    case Member(before, key, colonBefore, colonAfter, value, after, rest) =>
      RenderKey(before, key, colonBefore, colonAfter) + Render(value) + after
      + (if rest.NoMembers? then [] else [COMMA] + RenderMembers(rest))
  }

  function Max(a: nat, b: nat): nat {
    if a < b then b else a
  }

  function Depth(v: Value): nat {
    match v
    case Scalar(_) => 0
    case Text(_) => 0
    case Array(_, items) => 1 + ItemsDepth(items)
    case Object(_, members) => 1 + MembersDepth(members)
  }

  function ItemsDepth(items: Items): nat {
    match items
    case NoItems => 0
    case Item(_, value, _, rest) => Max(Depth(value), ItemsDepth(rest))
  }

  function MembersDepth(members: Members): nat {
    match members
    case NoMembers => 0
    case Member(_, _, _, _, value, _, rest) => Max(Depth(value), MembersDepth(rest))
  }

  // ---- the scanner ----

  // Whether the scan of `s` goes past `max`, from a given depth, outside strings.
  predicate Exceeds(s: seq<byte>, max: nat, depth: nat)
    decreases |s|
  {
    if s == [] then false
    else if s[0] == QUOTE then InText(s[1..], max, depth, false)
    else if s[0] == OPEN_BRACE || s[0] == OPEN_BRACKET then depth + 1 > max || Exceeds(s[1..], max, depth + 1)
    else if s[0] == CLOSE_BRACE || s[0] == CLOSE_BRACKET then Exceeds(s[1..], max, if depth == 0 then 0 else depth - 1)
    else Exceeds(s[1..], max, depth)
  }

  predicate InText(s: seq<byte>, max: nat, depth: nat, escaped: bool)
    decreases |s|
  {
    if s == [] then false
    else if escaped then InText(s[1..], max, depth, false)
    else if s[0] == BACKSLASH then InText(s[1..], max, depth, true)
    else if s[0] == QUOTE then Exceeds(s[1..], max, depth)
    else InText(s[1..], max, depth, false)
  }

  method JsonDepthExceeds(bytes: seq<byte>, max: nat) returns (r: bool)
    ensures r == Exceeds(bytes, max, 0)
  {
    var depth: nat := 0;
    var inString, escaped := false, false;
    for i := 0 to |bytes|
      invariant Exceeds(bytes, max, 0) ==
                if inString then InText(bytes[i..], max, depth, escaped) else Exceeds(bytes[i..], max, depth)
      invariant escaped ==> inString
    {
      assert bytes[i..][1..] == bytes[i + 1..];
      var b := bytes[i];
      if inString {
        if escaped {
          escaped := false;
        } else if b == BACKSLASH {
          escaped := true;
        } else if b == QUOTE {
          inString := false;
        }
      } else if b == QUOTE {
        inString := true;
      } else if b == OPEN_BRACE || b == OPEN_BRACKET {
        depth := depth + 1;
        if depth > max { return true; }
      } else if b == CLOSE_BRACE || b == CLOSE_BRACKET {
        depth := if depth == 0 then 0 else depth - 1;
      }
    }
    r := false;
  }

  // ---- scanning a rendered value ----

  lemma {:induction false} ScanInert(s: seq<byte>, tail: seq<byte>, max: nat, depth: nat)
    requires Inert(s)
    ensures Exceeds(s + tail, max, depth) == Exceeds(tail, max, depth)
  {
    if s == [] {
      assert s + tail == tail;
    } else {
      assert (s + tail)[1..] == s[1..] + tail;
      ScanInert(s[1..], tail, max, depth);
    }
  }

  lemma {:induction false} ScanChars(chars: seq<Char>, tail: seq<byte>, max: nat, depth: nat)
    requires CharsWritten(chars)
    ensures InText(RenderChars(chars) + [QUOTE] + tail, max, depth, false) == Exceeds(tail, max, depth)
  {
    if chars == [] {
      assert [] + [QUOTE] + tail == [QUOTE] + tail;
    } else {
      var more := RenderChars(chars[1..]) + [QUOTE] + tail;
      ScanChars(chars[1..], tail, max, depth);
      if chars[0].Plain? {
        assert RenderChars(chars) + [QUOTE] + tail == [chars[0].b] + more;
      } else {
        assert RenderChars(chars) + [QUOTE] + tail == [BACKSLASH, chars[0].b] + more;
        assert ([BACKSLASH, chars[0].b] + more)[1..] == [chars[0].b] + more;
        assert ([chars[0].b] + more)[1..] == more;
      }
    }
  }

  lemma ScanText(chars: seq<Char>, tail: seq<byte>, max: nat, depth: nat)
    requires CharsWritten(chars)
    ensures Exceeds(RenderText(chars) + tail, max, depth) == Exceeds(tail, max, depth)
  {
    ScanChars(chars, tail, max, depth);
    assert (RenderText(chars) + tail)[1..] == RenderChars(chars) + [QUOTE] + tail;
  }

  lemma ScanKey(before: seq<byte>, key: seq<Char>, colonBefore: seq<byte>, colonAfter: seq<byte>, tail: seq<byte>,
                max: nat, depth: nat)
    requires Space(before) && CharsWritten(key) && Space(colonBefore) && Space(colonAfter)
    ensures Exceeds(RenderKey(before, key, colonBefore, colonAfter) + tail, max, depth) == Exceeds(tail, max, depth)
  {
    hide Exceeds, RenderText;
    var colon := colonBefore + [COLON] + colonAfter;
    assert RenderKey(before, key, colonBefore, colonAfter) + tail == before + (RenderText(key) + (colon + tail));
    ScanInert(before, RenderText(key) + (colon + tail), max, depth);
    ScanText(key, colon + tail, max, depth);
    ScanInert(colon, tail, max, depth);
  }

  lemma ScanOpen(b: byte, inner: seq<byte>, max: nat, depth: nat)
    requires b == OPEN_BRACKET || b == OPEN_BRACE
    ensures Exceeds([b] + inner, max, depth) <==> depth + 1 > max || Exceeds(inner, max, depth + 1)
  {
    assert ([b] + inner)[1..] == inner;
  }

  lemma ScanClose(b: byte, tail: seq<byte>, max: nat, depth: nat)
    requires b == CLOSE_BRACKET || b == CLOSE_BRACE
    ensures Exceeds([b] + tail, max, depth + 1) == Exceeds(tail, max, depth)
  {
    assert ([b] + tail)[1..] == tail;
  }

  /** Scanning a value and what follows it: the value contributes its depth and leaves the
      scanner where it found it. */
  lemma {:induction false} ScanValue(v: Value, tail: seq<byte>, max: nat, depth: nat)
    requires WellFormed(v) && depth <= max
    ensures Exceeds(Render(v) + tail, max, depth) <==> depth + Depth(v) > max || Exceeds(tail, max, depth)
  {
    hide Exceeds, RenderText, RenderItems, RenderMembers;
    match v {
      case Scalar(text) => ScanInert(text, tail, max, depth);
      case Text(chars) => ScanText(chars, tail, max, depth);
      case Array(space, items) =>
        var inner := RenderItems(items) + ([CLOSE_BRACKET] + tail);
        assert Render(v) + tail == [OPEN_BRACKET] + (space + inner);
        ScanOpen(OPEN_BRACKET, space + inner, max, depth);
        ScanInert(space, inner, max, depth + 1);
        if depth + 1 <= max { ScanItems(items, [CLOSE_BRACKET] + tail, max, depth + 1); }
        ScanClose(CLOSE_BRACKET, tail, max, depth);
      case Object(space, members) =>
        var inner := RenderMembers(members) + ([CLOSE_BRACE] + tail);
        assert Render(v) + tail == [OPEN_BRACE] + (space + inner);
        ScanOpen(OPEN_BRACE, space + inner, max, depth);
        ScanInert(space, inner, max, depth + 1);
        if depth + 1 <= max { ScanMembers(members, [CLOSE_BRACE] + tail, max, depth + 1); }
        ScanClose(CLOSE_BRACE, tail, max, depth);
    }
  }

  lemma {:induction false} ScanItems(items: Items, tail: seq<byte>, max: nat, depth: nat)
    requires ItemsFormed(items) && depth <= max
    ensures Exceeds(RenderItems(items) + tail, max, depth) <==>
            depth + ItemsDepth(items) > max || Exceeds(tail, max, depth)
  {
    hide Exceeds, Render;
    match items {
      case NoItems => assert RenderItems(items) + tail == tail;
      case Item(before, value, after, rest) =>
        var next := if rest.NoItems? then tail else [COMMA] + (RenderItems(rest) + tail);
        assert RenderItems(items) + tail == before + (Render(value) + (after + next));
        ScanInert(before, Render(value) + (after + next), max, depth);
        ScanValue(value, after + next, max, depth);
        ScanInert(after, next, max, depth);
        ScanInert([COMMA], RenderItems(rest) + tail, max, depth);
        ScanItems(rest, tail, max, depth);
    }
  }

  lemma {:induction false} ScanMembers(members: Members, tail: seq<byte>, max: nat, depth: nat)
    requires MembersFormed(members) && depth <= max
    ensures Exceeds(RenderMembers(members) + tail, max, depth) <==>
            depth + MembersDepth(members) > max || Exceeds(tail, max, depth)
  {
    hide Exceeds, Render, RenderKey;
    match members {
      case NoMembers => assert RenderMembers(members) + tail == tail;
      case Member(before, key, colonBefore, colonAfter, value, after, rest) =>
        var next := if rest.NoMembers? then tail else [COMMA] + (RenderMembers(rest) + tail);
        var head := RenderKey(before, key, colonBefore, colonAfter);
        assert RenderMembers(members) + tail == head + (Render(value) + (after + next));
        ScanKey(before, key, colonBefore, colonAfter, Render(value) + (after + next), max, depth);
        ScanValue(value, after + next, max, depth);
        ScanInert(after, next, max, depth);
        ScanInert([COMMA], RenderMembers(rest) + tail, max, depth);
        ScanMembers(rest, tail, max, depth);
    }
  }

  /** The scan is exact: for every JSON text, however it spaces its tokens and escapes its
      strings, it answers yes if and only if the nesting is deeper than `max`. */
  lemma ScanIsExact(before: seq<byte>, v: Value, after: seq<byte>, max: nat)
    requires WellFormed(v) && Space(before) && Space(after)
    ensures Exceeds(before + Render(v) + after, max, 0) <==> Depth(v) > max
  {
    assert before + Render(v) + after == before + (Render(v) + after);
    ScanInert(before, Render(v) + after, max, 0);
    ScanValue(v, after, max, 0);
    assert after == after + [];
    ScanInert(after, [], max, 0);
  }
}
