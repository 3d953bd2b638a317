/**
 Byte-level text primitives used by the profile parser and by the stored timestamps.

 A Go string is a sequence of bytes.  Throughout the project a `char` of such a string stands for
 one byte, so the length of a text is its length in bytes.
 */
module Text {

  type Byte = b: int | 0 <= b < 256

  type Bytes = seq<Byte>

  /** A number below 2^32 is made up of its four bytes, most significant first. */
  lemma FourBytes(n: nat)
    requires n < 0x1_0000_0000
    ensures 0 <= n / 0x100_0000 < 0x100
    ensures n == n / 0x100_0000 * 0x100_0000 + n / 0x1_0000 % 0x100 * 0x1_0000 + n / 0x100 % 0x100 * 0x100 + n % 0x100
  {
    LastByte(n);
    LastByte(n / 0x100);
    LastByte(n / 0x1_0000);
  }

  lemma LastByte(n: nat)
    ensures n == n / 0x100 * 0x100 + n % 0x100
    ensures n / 0x100 / 0x100 == n / 0x1_0000 && n / 0x1_0000 / 0x100 == n / 0x100_0000
  {
  }

  datatype Option<+T> = None | Some(value: T)

  datatype Result<+T, +E> = Ok(value: T) | Err(error: E) {
    predicate IsFailure() {
      Err?
    }

    function PropagateFailure<U>(): Result<U, E>
      requires Err?
    {
      Err(error)
    }

    function Extract(): T
      requires Ok?
    {
      value
    }
  }

  // ----- White space, as `unicode.IsSpace` sees it in UTF-8 -----

  predicate IsAsciiSpace(c: char) {
    c == ' ' || c == '\t' || c == '\n' || c == '\U{0B}' || c == '\U{0C}' || c == '\r'
  }

  /** U+0085 and U+00A0. */
  predicate IsTwoByteSpace(a: char, b: char) {
    a == '\U{C2}' && (b == '\U{85}' || b == '\U{A0}')
  }

  /** U+1680, U+2000 to U+200A, U+2028, U+2029, U+202F, U+205F and U+3000. */
  predicate IsThreeByteSpace(a: char, b: char, c: char) {
    || (a == '\U{E1}' && b == '\U{9A}' && c == '\U{80}')
    || (a == '\U{E2}' && b == '\U{80}' &&
        ('\U{80}' <= c <= '\U{8A}' || c == '\U{A8}' || c == '\U{A9}' || c == '\U{AF}'))
    || (a == '\U{E2}' && b == '\U{81}' && c == '\U{9F}')
    || (a == '\U{E3}' && b == '\U{80}' && c == '\U{80}')
  }

  /** The number of bytes of the white-space character that `s` starts with, or 0. */
  function LeadingSpace(s: string): (n: nat)
    ensures n <= |s|
  {
    if |s| >= 1 && IsAsciiSpace(s[0]) then 1
    else if |s| >= 2 && IsTwoByteSpace(s[0], s[1]) then 2
    else if |s| >= 3 && IsThreeByteSpace(s[0], s[1], s[2]) then 3
    else 0
  }

  /** The number of bytes of the white-space character that `s` ends with, or 0. */
  function TrailingSpace(s: string): (n: nat)
    ensures n <= |s|
  {
    var k := |s|;
    if k >= 1 && IsAsciiSpace(s[k - 1]) then 1
    else if k >= 2 && IsTwoByteSpace(s[k - 2], s[k - 1]) then 2
    else if k >= 3 && IsThreeByteSpace(s[k - 3], s[k - 2], s[k - 1]) then 3
    else 0
  }

  predicate Trimmed(s: string) {
    LeadingSpace(s) == 0 && TrailingSpace(s) == 0
  }

  function TrimLeft(s: string): (r: string)
    ensures |r| <= |s| && LeadingSpace(r) == 0
    ensures r == s[|s| - |r|..]
  {
    if LeadingSpace(s) == 0 then s else TrimLeft(s[LeadingSpace(s)..])
  }

  function TrimRight(s: string): (r: string)
    ensures |r| <= |s| && TrailingSpace(r) == 0
    ensures r == s[..|r|]
  {
    if TrailingSpace(s) == 0 then s else TrimRight(s[..|s| - TrailingSpace(s)])
  }

  /** `strings.TrimSpace`: the result has no white space at either end and is a slice of `s`. */
  function TrimSpace(s: string): (r: string)
    ensures |r| <= |s| && Trimmed(r)
    ensures Trimmed(s) ==> r == s
  {
    TrimRight(TrimLeft(s))
  }

  /** Trimming brings in no character. */
  lemma TrimKeepsOut(s: string, c: char)
    requires c !in s
    ensures c !in TrimSpace(s)
  {
    hide LeadingSpace, TrailingSpace, Trimmed;
    CutKeepsOut(s, |s| - |TrimLeft(s)|, c);
    var left := TrimLeft(s);
    assert forall i :: 0 <= i < |TrimRight(left)| ==> TrimRight(left)[i] == left[i];
  }

  lemma CutKeepsOut(s: string, i: nat, c: char)
    requires i <= |s| && c !in s
    ensures c !in s[i..]
  {
  }

  /** Nothing but white space, read from the front or from the back. */
  predicate BlankAhead(s: string) {
    s == "" || (LeadingSpace(s) > 0 && BlankAhead(s[LeadingSpace(s)..]))
  }

  predicate BlankBehind(s: string) {
    s == "" || (TrailingSpace(s) > 0 && BlankBehind(s[..|s| - TrailingSpace(s)]))
  }

  lemma MoreBlankAhead(space: string, cut: string, rest: string)
    requires LeadingSpace(space + cut + rest) == |space| > 0 && BlankAhead(cut)
    ensures BlankAhead(space + cut)
  {
    assert (space + cut)[|space|..] == cut;
    assert LeadingSpace(space + cut) == |space| by {
      hide BlankAhead;
    }
    hide LeadingSpace;
  }

  lemma MoreBlankBehind(rest: string, cut: string, space: string)
    requires TrailingSpace(rest + cut + space) == |space| > 0 && BlankBehind(cut)
    ensures BlankBehind(cut + space)
  {
    assert (cut + space)[..|cut|] == cut;
    assert TrailingSpace(cut + space) == |space| by {
      hide BlankBehind;
    }
    hide TrailingSpace;
  }

  lemma {:induction false} TrimLeftDropsBlank(s: string) returns (cut: string)
    ensures s == cut + TrimLeft(s) && BlankAhead(cut)
  {
    hide LeadingSpace, Trimmed;
    cut := "";
    if LeadingSpace(s) > 0 {
      var k := LeadingSpace(s);
      var space, rest := s[..k], s[k..];
      cut := TrimLeftDropsBlank(rest);
      MoveFront(space, cut, TrimLeft(rest), s);
      MoreBlankAhead(space, cut, TrimLeft(rest));
      cut := space + cut;
    }
  }

  lemma MoveFront(a: string, b: string, c: string, s: string)
    requires s == a + (b + c)
    ensures s == a + b + c
  {
  }

  lemma {:induction false} TrimRightDropsBlank(s: string) returns (cut: string)
    ensures s == TrimRight(s) + cut && BlankBehind(cut)
  {
    hide TrailingSpace, Trimmed;
    cut := "";
    if TrailingSpace(s) > 0 {
      var k := |s| - TrailingSpace(s);
      var rest, space := s[..k], s[k..];
      cut := TrimRightDropsBlank(rest);
      assert s == TrimRight(rest) + cut + space;
      hide BlankBehind;
      MoreBlankBehind(TrimRight(rest), cut, space);
      cut := cut + space;
    }
  }

  /** Trimming takes off white space, all of it, and nothing else. */
  lemma TrimSpaceExact(s: string) returns (before: string, after: string)
    ensures s == before + TrimSpace(s) + after && BlankAhead(before) && BlankBehind(after)
    ensures Trimmed(TrimSpace(s))
  {
    before := TrimLeftDropsBlank(s);
    after := TrimRightDropsBlank(TrimLeft(s));
    hide LeadingSpace, TrailingSpace, BlankAhead, BlankBehind, TrimLeft, TrimRight, Trimmed;
  }

  // ----- Case folding -----

  predicate IsAsciiUpper(c: char) {
    'A' <= c <= 'Z'
  }

  predicate IsAsciiLetter(c: char) {
    'A' <= c <= 'Z' || 'a' <= c <= 'z'
  }

  function LowerChar(c: char): char {
    if IsAsciiUpper(c) then (c as int + 32) as char else c
  }

  /**
   `strings.ToLower` as far as a comparison with an ASCII literal can see: the only non-ASCII
   characters that fold to ASCII are U+0130 (to 'i') and U+212A (to 'k'); every other non-ASCII
   character folds to something non-ASCII, which is kept as it is here.
   */
  function Lower(s: string): (r: string)
    ensures |r| <= |s|
  {
    if s == "" then ""
    else if |s| >= 2 && s[..2] == ['\U{C4}', '\U{B0}'] then "i" + Lower(s[2..])
    else if |s| >= 3 && s[..3] == ['\U{E2}', '\U{84}', '\U{AA}'] then "k" + Lower(s[3..])
    else [LowerChar(s[0])] + Lower(s[1..])
  }

  predicate AllLetters(s: string) {
    forall i :: 0 <= i < |s| ==> IsAsciiLetter(s[i])
  }

  lemma {:induction false} LowerOfLetters(s: string)
    requires AllLetters(s)
    ensures |Lower(s)| == |s|
    ensures forall i :: 0 <= i < |s| ==> Lower(s)[i] == LowerChar(s[i])
  {
    if s != "" {
      assert IsAsciiLetter(s[0]);
      LowerOfLetters(s[1..]);
    }
  }

  /** Folding an ASCII text maps A to Z to a to z, byte by byte, and changes nothing else. */
  lemma {:induction false} LowerOfAscii(s: string)
    requires forall i :: 0 <= i < |s| ==> s[i] < '\U{80}'
    ensures |Lower(s)| == |s|
    ensures forall i :: 0 <= i < |s| ==>
              Lower(s)[i] == if 'A' <= s[i] <= 'Z' then (s[i] as int + ('a' as int - 'A' as int)) as char else s[i]
  {
    if s != "" {
      LowerOfAscii(s[1..]);
    }
  }

  // ----- Searching -----

  /** `strings.IndexByte`, with |s| instead of -1 when `c` does not occur. */
  function IndexOf(s: string, c: char): (i: nat)
    ensures i <= |s| && (forall j :: 0 <= j < i ==> s[j] != c)
    ensures i < |s| ==> s[i] == c
  {
    if s == "" || s[0] == c then 0 else 1 + IndexOf(s[1..], c)
  }

  lemma IndexOfConcat(a: string, c: char, b: string)
    requires c !in a
    ensures IndexOf(a + [c] + b, c) == |a|
  {
    var s := a + [c] + b;
    assert s[|a|] == c;
    forall j | 0 <= j < |a| ensures s[j] != c {
      assert s[j] == a[j];
    }
  }

  /** What `bufio.ScanLines` drops from the end of a line. */
  function DropCarriageReturn(line: string): (r: string)
    ensures |r| <= |line|
  {
    if |line| > 0 && line[|line| - 1] == '\r' then line[..|line| - 1] else line
  }

  // ----- Byte order -----

  predicate Less(a: string, b: string) {
    b != "" && (a == "" || a[0] < b[0] || (a[0] == b[0] && Less(a[1..], b[1..])))
  }

  /** Behind prefixes of equal length, order is decided by the prefixes and then by the rest. */
  lemma {:induction false} LessConcat(p: string, x: string, q: string, y: string)
    requires |p| == |q|
    ensures Less(p + x, q + y) <==> Less(p, q) || (p == q && Less(x, y))
  {
    if p == "" {
      assert p + x == x && q + y == y;
    } else {
      assert (p + x)[1..] == p[1..] + x && (q + y)[1..] == q[1..] + y;
      LessConcat(p[1..], x, q[1..], y);
      assert p == q <==> p[0] == q[0] && p[1..] == q[1..];
    }
  }

  lemma {:induction false} LessIrreflexive(a: string)
    ensures !Less(a, a)
  {
    if a != "" {
      LessIrreflexive(a[1..]);
    }
  }

  lemma {:induction false} LessTotal(a: string, b: string)
    ensures a == b || Less(a, b) || Less(b, a)
  {
    if a != "" && b != "" && a[0] == b[0] {
      LessTotal(a[1..], b[1..]);
      assert a == [a[0]] + a[1..] && b == [b[0]] + b[1..];
    }
  }

  lemma {:induction false} LessTransitive(a: string, b: string, c: string)
    requires Less(a, b) && Less(b, c)
    ensures Less(a, c)
  {
    if a != "" && a[0] == b[0] && b[0] == c[0] {
      LessTransitive(a[1..], b[1..], c[1..]);
    }
  }
}
