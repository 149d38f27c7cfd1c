/** Go byte strings and the parts of Go's standard library the core relies
    on: net/http's StatusOK, strings.TrimSpace (credentials) and
    url.QueryEscape (the query parameter), with url.QueryUnescape as the
    inverse of the latter. A Go string is a sequence of bytes; text is UTF-8
    only by convention. */
module GoStd {

  newtype byte = x: int | 0 <= x < 256

  type GoString = seq<byte>

  datatype Option<T> = None | Some(value: T)

  /** net/http's StatusOK. */
  const StatusOK: int := 200

  /** The bytes of an ASCII literal (every character below 128 maps to itself). */
  function Ascii(s: string): (r: GoString)
    ensures |r| == |s|
  {
    seq(|s|, i requires 0 <= i < |s| => (s[i] as int % 256) as byte)
  }

  /** `t` occurs in `s` starting at byte `i`. */
  predicate OccursAt(s: GoString, t: GoString, i: nat)
  {
    i + |t| <= |s| && s[i..i + |t|] == t
  }

  /** `t` occurs in `s` as a contiguous run of bytes (strings.Contains). */
  ghost predicate Contains(s: GoString, t: GoString)
  {
    exists i :: OccursAt(s, t, i)
  }

  /** Where `t` occurs, `s` holds `t`'s first byte. */
  lemma OccursAtStartsWith(s: GoString, t: GoString, i: nat)
    requires |t| > 0 && OccursAt(s, t, i)
    ensures s[i] == t[0]
  {
    assert s[i..i + |t|][0] == s[i];
  }

  /** A string whose first byte `s` never holds does not occur in `s`. */
  lemma AbsentFirstByte(s: GoString, t: GoString)
    requires |t| > 0
    requires forall i :: 0 <= i < |s| ==> s[i] != t[0]
    ensures !Contains(s, t)
  {
    if Contains(s, t) {
      var i: nat :| OccursAt(s, t, i);
      OccursAtStartsWith(s, t, i);
      assert false;
    }
  }

  /** A string occurs where it was spliced in. */
  lemma OccursInSplice(a: GoString, t: GoString, b: GoString)
    ensures OccursAt(a + t + b, t, |a|)
  {
    assert (a + t + b)[|a|..|a| + |t|] == t;
  }

  // ---------------------------------------------------------------------------
  // strings.TrimSpace
  // ---------------------------------------------------------------------------

  /** '\t', '\n', '\v', '\f', '\r' and ' ': the white-space runes below 0x80. */
  predicate IsAsciiSpace(b: byte)
  {
    9 <= b <= 13 || b == 32
  }

  /** The two-byte UTF-8 encodings of white space: U+0085 and U+00A0. */
  predicate IsSpace2(b0: byte, b1: byte)
  {
    b0 == 0xC2 && (b1 == 0x85 || b1 == 0xA0)
  }

  /** The three-byte UTF-8 encodings of white space: U+1680, U+2000..U+200A,
      U+2028, U+2029, U+202F, U+205F and U+3000. */
  predicate IsSpace3(b0: byte, b1: byte, b2: byte)
  {
    || (b0 == 0xE1 && b1 == 0x9A && b2 == 0x80)
    || (b0 == 0xE2 && b1 == 0x80 && (0x80 <= b2 <= 0x8A || b2 == 0xA8 || b2 == 0xA9 || b2 == 0xAF))
    || (b0 == 0xE2 && b1 == 0x81 && b2 == 0x9F)
    || (b0 == 0xE3 && b1 == 0x80 && b2 == 0x80)
  }

  /** Width of the white-space rune that starts at byte `i` and fits before
      byte `j`, or 0 when the rune there is anything else (the rune
      utf8.DecodeRuneInString reads at `i`; the encodings above differ in
      their first byte, so at most one of them fits). */
  function SpaceAt(s: GoString, i: nat, j: nat): (w: nat)
    requires i <= j <= |s|
    ensures i + w <= j && w <= 3
  {
    if i + 1 <= j && IsAsciiSpace(s[i]) then 1
    else if i + 2 <= j && IsSpace2(s[i], s[i + 1]) then 2
    else if i + 3 <= j && IsSpace3(s[i], s[i + 1], s[i + 2]) then 3
    else 0
  }

  /** Width of the white-space rune that ends just before byte `j` and starts
      at or after byte `i`, or 0 (the rune utf8.DecodeLastRuneInString reads
      before `j`). */
  function SpaceBefore(s: GoString, i: nat, j: nat): (w: nat)
    requires i <= j <= |s|
    ensures i + w <= j && w <= 3
  {
    if i + 1 <= j && IsAsciiSpace(s[j - 1]) then 1
    else if i + 2 <= j && IsSpace2(s[j - 2], s[j - 1]) then 2
    else if i + 3 <= j && IsSpace3(s[j - 3], s[j - 2], s[j - 1]) then 3
    else 0
  }

  /** The bytes of `s` from `i` up to `j` read, rune by rune from the front,
      as white space only (nothing at all included). */
  predicate SpaceOnly(s: GoString, i: nat, j: nat)
    requires i <= j <= |s|
    decreases j - i
  {
    i == j || (SpaceAt(s, i, j) > 0 && SpaceOnly(s, i + SpaceAt(s, i, j), j))
  }

  /** strings.TrimLeftFunc(s, unicode.IsSpace) on the bytes from `i` to `j`:
      where the first rune that is not white space starts (`j` if none). */
  function FirstNonSpace(s: GoString, i: nat, j: nat): (k: nat)
    requires i <= j <= |s|
    ensures i <= k <= j
    ensures SpaceAt(s, k, j) == 0
    decreases j - i
  {
    var w := SpaceAt(s, i, j);
    if w == 0 then i else FirstNonSpace(s, i + w, j)
  }

  /** strings.TrimRightFunc(s, unicode.IsSpace) on the bytes from `i` to `j`:
      where the last rune that is not white space ends (`i` if none). */
  function LastNonSpaceEnd(s: GoString, i: nat, j: nat): (k: nat)
    requires i <= j <= |s|
    ensures i <= k <= j
    ensures SpaceBefore(s, i, k) == 0
    decreases j - i
  {
    var w := SpaceBefore(s, i, j);
    if w == 0 then j else LastNonSpaceEnd(s, i, j - w)
  }

  /** strings.TrimSpace: `s` without its leading and trailing white space. */
  function TrimSpace(s: GoString): (r: GoString)
    ensures |r| <= |s|
  {
    var i := FirstNonSpace(s, 0, |s|);
    s[i..LastNonSpaceEnd(s, i, |s|)]
  }

  /** Moving the bound `j` does not change a white-space rune that still fits. */
  lemma SpaceAtBound(s: GoString, i: nat, j: nat, k: nat)
    requires i <= j <= |s| && i <= k <= |s|
    requires i + SpaceAt(s, i, j) <= k
    requires SpaceAt(s, i, j) > 0 || k <= j
    ensures SpaceAt(s, i, k) == SpaceAt(s, i, j)
  {
  }

  /** Two adjacent white-space runs form one. */
  lemma {:induction false} SpaceOnlyJoin(s: GoString, a: nat, b: nat, c: nat)
    requires a <= b <= c <= |s|
    requires SpaceOnly(s, a, b) && SpaceOnly(s, b, c)
    ensures SpaceOnly(s, a, c)
    decreases b - a
  {
    if a < b {
      var w := SpaceAt(s, a, b);
      SpaceAtBound(s, a, b, c);
      SpaceOnlyJoin(s, a + w, b, c);
    }
  }

  /** A single white-space rune, found from the back, reads as white space
      from the front as well. */
  lemma SpaceBeforeRune(s: GoString, i: nat, j: nat)
    requires i <= j <= |s| && SpaceBefore(s, i, j) > 0
    ensures SpaceOnly(s, j - SpaceBefore(s, i, j), j)
  {
    var b := j - SpaceBefore(s, i, j);
    assert SpaceAt(s, b, j) == j - b;
  }

  /** What TrimLeftFunc skips is white space. */
  lemma {:induction false} FirstNonSpaceSkipsSpace(s: GoString, i: nat, j: nat)
    requires i <= j <= |s|
    ensures SpaceOnly(s, i, FirstNonSpace(s, i, j))
    decreases j - i
  {
    var w := SpaceAt(s, i, j);
    if w > 0 {
      var k := FirstNonSpace(s, i + w, j);
      FirstNonSpaceSkipsSpace(s, i + w, j);
      SpaceAtBound(s, i, j, k);
    }
  }

  /** What TrimRightFunc drops is white space. */
  lemma {:induction false} LastNonSpaceEndDropsSpace(s: GoString, i: nat, j: nat)
    requires i <= j <= |s|
    ensures SpaceOnly(s, LastNonSpaceEnd(s, i, j), j)
    decreases j - i
  {
    var w := SpaceBefore(s, i, j);
    if w > 0 {
      LastNonSpaceEndDropsSpace(s, i, j - w);
      SpaceBeforeRune(s, i, j);
      SpaceOnlyJoin(s, LastNonSpaceEnd(s, i, j - w), j - w, j);
    }
  }

  /** On white space only, TrimLeftFunc skips everything. */
  lemma {:induction false} FirstNonSpaceOfSpace(s: GoString, i: nat, j: nat)
    requires i <= j <= |s| && SpaceOnly(s, i, j)
    ensures FirstNonSpace(s, i, j) == j
    decreases j - i
  {
    if i < j {
      FirstNonSpaceOfSpace(s, i + SpaceAt(s, i, j), j);
    }
  }

  /** What strings.TrimSpace keeps and removes: `s` is its result with white
      space before and after it, and the result neither starts nor ends with
      a white-space rune. */
  lemma TrimSpaceShape(s: GoString)
    ensures var i := FirstNonSpace(s, 0, |s|);
      var k := LastNonSpaceEnd(s, i, |s|);
      && TrimSpace(s) == s[i..k]
      && SpaceOnly(s, 0, i) && SpaceOnly(s, k, |s|)
      && SpaceAt(s, i, k) == 0 && SpaceBefore(s, i, k) == 0
  {
    var n := |s|;
    var i := FirstNonSpace(s, 0, n);
    var k := LastNonSpaceEnd(s, i, n);
    FirstNonSpaceSkipsSpace(s, 0, n);
    LastNonSpaceEndDropsSpace(s, i, n);
    SpaceAtBound(s, i, n, k);
  }

  /** strings.TrimSpace yields "" exactly when the input is white space only,
      which includes the empty (unset) value. */
  lemma TrimSpaceEmptyIff(s: GoString)
    ensures TrimSpace(s) == [] <==> SpaceOnly(s, 0, |s|)
  {
    var n := |s|;
    var i := FirstNonSpace(s, 0, n);
    if SpaceOnly(s, 0, n) {
      FirstNonSpaceOfSpace(s, 0, n);
    }
    if TrimSpace(s) == [] {
      TrimSpaceShape(s);
      SpaceOnlyJoin(s, 0, i, n);
    }
  }

  /** A string that begins and ends with an ASCII byte that is not white
      space is left unchanged. */
  lemma TrimSpaceKeepsAsciiEnds(s: GoString)
    requires |s| > 0
    requires s[0] < 128 && !IsAsciiSpace(s[0])
    requires s[|s| - 1] < 128 && !IsAsciiSpace(s[|s| - 1])
    ensures TrimSpace(s) == s
  {
    assert FirstNonSpace(s, 0, |s|) == 0;
    assert LastNonSpaceEnd(s, 0, |s|) == |s|;
  }

  /** ASCII control bytes other than '\t', '\n', '\v', '\f' and '\r' are not
      white space: a string that begins and ends with one is left unchanged. */
  lemma TrimSpaceKeepsControlBytes(s: GoString)
    requires |s| > 0
    requires s[0] < 9 || 13 < s[0] < 32 || s[0] == 127
    requires s[|s| - 1] < 9 || 13 < s[|s| - 1] < 32 || s[|s| - 1] == 127
    ensures TrimSpace(s) == s
  {
    assert FirstNonSpace(s, 0, |s|) == 0;
    assert LastNonSpaceEnd(s, 0, |s|) == |s|;
  }

  // ---------------------------------------------------------------------------
  // url.QueryEscape and url.QueryUnescape
  // ---------------------------------------------------------------------------

  /** Bytes that url.QueryEscape copies unchanged: letters, digits and
      '-', '_', '.', '~'. */
  predicate Unreserved(b: byte)
  {
    || 97 <= b <= 122  // 'a'..'z'
    || 65 <= b <= 90   // 'A'..'Z'
    || 48 <= b <= 57   // '0'..'9'
    || b == 45 || b == 95 || b == 46 || b == 126  // '-' '_' '.' '~'
  }

  predicate IsHex(b: byte)
  {
    48 <= b <= 57 || 65 <= b <= 70 || 97 <= b <= 102
  }

  function Unhex(b: byte): (n: nat)
    requires IsHex(b)
    ensures n < 16
  {
    if b <= 57 then (b - 48) as nat
    else if b <= 70 then (b - 55) as nat
    else (b - 87) as nat
  }

  /** The upper-case hexadecimal digit for `n`. */
  function UpperHex(n: nat): (b: byte)
    requires n < 16
    ensures IsHex(b) && Unhex(b) == n
  {
    if n < 10 then (48 + n) as byte else (55 + n) as byte
  }

  /** How url.QueryEscape writes one byte: unreserved bytes as themselves,
      the space as '+', everything else as '%' and two upper-case hex digits. */
  function EscapeByte(b: byte): (e: GoString)
  {
    if Unreserved(b) then [b]
    else if b == 32 then [43]
    else [37, UpperHex(b as nat / 16), UpperHex(b as nat % 16)]
  }

  /** url.QueryEscape: each byte escaped on its own, in order. */
  function QueryEscape(s: GoString): (e: GoString)
    decreases |s|
  {
    if s == [] then [] else EscapeByte(s[0]) + QueryEscape(s[1..])
  }

  /** url.QueryUnescape: '+' reads as a space, "%XY" as the byte with hex
      value XY (either case), anything else as itself; a '%' that is not
      followed by two hex digits makes the whole input invalid. */
  function QueryUnescape(s: GoString): (r: Option<GoString>)
    ensures r.Some? ==> |r.value| <= |s|
    decreases |s|
  {
    if s == [] then Some([])
    else if s[0] == 37 then
      if |s| < 3 || !IsHex(s[1]) || !IsHex(s[2]) then None
      else
        match QueryUnescape(s[3..])
        case None => None
        case Some(t) => Some([(Unhex(s[1]) * 16 + Unhex(s[2])) as byte] + t)
    else if s[0] == 43 then
      match QueryUnescape(s[1..])
      case None => None
      case Some(t) => Some([32] + t)
    else
      match QueryUnescape(s[1..])
      case None => None
      case Some(t) => Some([s[0]] + t)
  }

  /** Bytes url.QueryEscape may produce. None of them is '&', '#', '=' or a
      space, so an escaped value cannot end or split a query parameter. */
  predicate QuerySafe(b: byte)
  {
    Unreserved(b) || b == 43 || b == 37
  }

  /** Escaping distributes over concatenation. */
  lemma {:induction false} QueryEscapeAppend(a: GoString, b: GoString)
    ensures QueryEscape(a + b) == QueryEscape(a) + QueryEscape(b)
    decreases |a|
  {
    if a == [] {
      assert a + b == b;
    } else {
      assert (a + b)[0] == a[0];
      assert (a + b)[1..] == a[1..] + b;
      QueryEscapeAppend(a[1..], b);
    }
  }

  /** A string of unreserved bytes is its own escape. */
  lemma {:induction false} QueryEscapeUnreserved(s: GoString)
    requires forall i :: 0 <= i < |s| ==> Unreserved(s[i])
    ensures QueryEscape(s) == s
    decreases |s|
  {
    if s != [] {
      QueryEscapeUnreserved(s[1..]);
    }
  }

  /** Every byte of an escaped string is safe inside a query parameter. */
  lemma {:induction false} QueryEscapeSafe(s: GoString)
    ensures forall i :: 0 <= i < |QueryEscape(s)| ==> QuerySafe(QueryEscape(s)[i])
    decreases |s|
  {
    if s != [] {
      QueryEscapeSafe(s[1..]);
      var e, rest := EscapeByte(s[0]), QueryEscape(s[1..]);
      assert QueryEscape(s) == e + rest;
      forall i | 0 <= i < |e + rest| ensures QuerySafe((e + rest)[i]) {
        if i >= |e| {
          assert (e + rest)[i] == rest[i - |e|];
        }
      }
    }
  }

  /** Unescaping an escaped string gives back the original bytes. */
  lemma {:induction false} QueryRoundTrip(s: GoString)
    ensures QueryUnescape(QueryEscape(s)) == Some(s)
    decreases |s|
  {
    if s != [] {
      QueryRoundTrip(s[1..]);
      var b, rest := s[0], QueryEscape(s[1..]);
      var e := EscapeByte(b);
      assert QueryEscape(s) == e + rest;
      if Unreserved(b) {
        assert (e + rest)[1..] == rest;
      } else if b == 32 {
        assert (e + rest)[1..] == rest;
      } else {
        var hi, lo := UpperHex(b as nat / 16), UpperHex(b as nat % 16);
        assert e == [37, hi, lo];
        assert (e + rest)[0] == 37 && (e + rest)[1] == hi && (e + rest)[2] == lo;
        assert (e + rest)[3..] == rest;
        assert Unhex(hi) * 16 + Unhex(lo) == b as nat;
        assert QueryUnescape(e + rest) == Some([b] + s[1..]);
      }
      assert s == [b] + s[1..];
    }
  }

  /** A space between two runs of unreserved bytes is escaped as '+' and
      nothing else changes. */
  lemma QueryEscapeSpace(a: GoString, b: GoString)
    requires forall i :: 0 <= i < |a| ==> Unreserved(a[i])
    requires forall i :: 0 <= i < |b| ==> Unreserved(b[i])
    ensures QueryEscape(a + [32] + b) == a + [43] + b
  {
    var sb := [32] + b;
    assert a + [32] + b == a + sb;
    assert sb[0] == 32 && sb[1..] == b;
    QueryEscapeAppend(a, sb);
    QueryEscapeUnreserved(a);
    QueryEscapeUnreserved(b);
  }

  /** The fact the handler's test relies on: "test query" escapes to "test+query". */
  lemma QueryEscapeTestQuery()
    ensures QueryEscape(Ascii("test query")) == Ascii("test+query")
  {
    var test, query := Ascii("test"), Ascii("query");
    assert test == [116, 101, 115, 116];
    assert query == [113, 117, 101, 114, 121];
    assert Ascii("test query") == test + [32] + query;
    assert Ascii("test+query") == test + [43] + query;
    QueryEscapeSpace(test, query);
  }
}
