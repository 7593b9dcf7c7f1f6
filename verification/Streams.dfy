/** Input streams over strings, as far as the trackers and clients use them:
    extraction of words and of decimal numbers, and the text left after it.

    A string is a sequence of bytes, each kept in one `char`.
 */
module Streams {

  datatype Option<+T> = None | Some(value: T)

  /** The white space of the C locale. */
  predicate IsSpace(c: char) {
    c == ' ' || 9 as char <= c <= 13 as char
  }

  predicate IsDigit(c: char) {
    '0' <= c <= '9'
  }

  predicate AllDigits(s: string) {
    forall i :: 0 <= i < |s| ==> IsDigit(s[i])
  }

  predicate Blank(s: string) {
    forall i :: 0 <= i < |s| ==> IsSpace(s[i])
  }

  predicate NoSpace(s: string) {
    forall i :: 0 <= i < |s| ==> !IsSpace(s[i])
  }

  /** What `operator>>` can read back as one token. */
  predicate IsWord(s: string) {
    s != "" && NoSpace(s)
  }

  /** The text starts with white space or is empty: a token before it ends there. */
  predicate EndsWord(s: string) {
    s == "" || IsSpace(s[0])
  }

  // ---- Scanning ----

  function SkipSpaces(s: string): (r: string)
    ensures |r| <= |s|
  {
    if s != "" && IsSpace(s[0]) then SkipSpaces(s[1..]) else s
  }

  lemma {:induction false} SkipSpacesStops(s: string)
    ensures SkipSpaces(s) == "" || !IsSpace(SkipSpaces(s)[0])
  {
    if s != "" && IsSpace(s[0]) {
      SkipSpacesStops(s[1..]);
    }
  }

  lemma {:induction false} SkipSpacesIsBlank(s: string)
    ensures SkipSpaces(s) == "" <==> Blank(s)
  {
    if s != "" && IsSpace(s[0]) {
      SkipSpacesIsBlank(s[1..]);
    }
  }

  function Word(s: string): (w: string)
    ensures |w| <= |s| && (s != "" && !IsSpace(s[0]) ==> w != "")
  {
    if s == "" || IsSpace(s[0]) then "" else [s[0]] + Word(s[1..])
  }

  function Digits(s: string): (d: string)
    ensures |d| <= |s| && AllDigits(d)
  {
    if s == "" || !IsDigit(s[0]) then "" else [s[0]] + Digits(s[1..])
  }

  lemma {:induction false} SkipSpacesPrefix(pre: string, s: string)
    requires Blank(pre) && (s == "" || !IsSpace(s[0]))
    ensures SkipSpaces(pre + s) == s
  {
    if pre == "" {
      assert pre + s == s;
    } else {
      assert (pre + s)[1..] == pre[1..] + s;
      SkipSpacesPrefix(pre[1..], s);
    }
  }

  lemma {:induction false} WordPrefix(w: string, s: string)
    requires NoSpace(w) && EndsWord(s)
    ensures Word(w + s) == w
  {
    if w == "" {
      assert w + s == s;
    } else {
      assert (w + s)[1..] == w[1..] + s;
      WordPrefix(w[1..], s);
    }
  }

  lemma {:induction false} DigitsPrefix(d: string, s: string)
    requires AllDigits(d)
    requires s == "" || !IsDigit(s[0])
    ensures Digits(d + s) == d
  {
    if d == "" {
      assert d + s == s;
    } else {
      assert (d + s)[1..] == d[1..] + s;
      DigitsPrefix(d[1..], s);
    }
  }

  // ---- Decimal numbers ----

  function DigitChar(n: nat): (c: char)
    requires n < 10
    ensures IsDigit(c) && (c as int) - ('0' as int) == n
  {
    ('0' as int + n) as char
  }

  /** `std::to_string` of an unsigned number. */
  function Decimal(n: nat): (s: string)
    ensures s != "" && AllDigits(s)
  {
    if n < 10 then [DigitChar(n)] else Decimal(n / 10) + [DigitChar(n % 10)]
  }

  function DigitValue(c: char): (n: nat)
    requires IsDigit(c)
    ensures n < 10 && DigitChar(n) == c
  {
    c as int - '0' as int
  }

  function DecimalValue(s: string): nat
    requires AllDigits(s)
  {
    if s == "" then 0 else DecimalValue(s[..|s| - 1]) * 10 + DigitValue(s[|s| - 1])
  }

  lemma {:induction false} DecimalRoundTrip(n: nat)
    ensures DecimalValue(Decimal(n)) == n
  {
    var s := Decimal(n);
    if n < 10 {
      assert s[..0] == "";
      assert DecimalValue(s[..0]) == 0;
    } else {
      DecimalRoundTrip(n / 10);
      assert s[..|s| - 1] == Decimal(n / 10);
    }
  }

  // ---- Streams ----

  /** A `std::stringstream` being read: the unread text and the two error bits. */
  datatype Stream = Stream(rest: string, eof: bool, fail: bool) {
    predicate Good() {
      !eof && !fail
    }
  }

  function Open(s: string): Stream {
    Stream(s, false, false)
  }

  /** `ss >> word`; the word stays empty when nothing can be extracted. */
  function ReadWord(s: Stream): (r: (string, Stream))
    ensures |r.1.rest| <= |s.rest| && (r.1.fail || |r.1.rest| < |s.rest|)
  {
    if !s.Good() then ("", s.(fail := true))
    else
      var t := SkipSpaces(s.rest);
      if t == "" then ("", Stream("", true, true))
      else
        var w := Word(t);
        SkipSpacesStops(s.rest);
        (w, Stream(t[|w|..], t[|w|..] == "", false))
  }

  /** The sign and magnitude of a number as the library scans it. */
  datatype Scan = Scan(negative: bool, magnitude: nat) {
    function Value(): int {
      if negative then 0 - magnitude else magnitude
    }
  }

  function ReadNumber(s: Stream): (Option<Scan>, Stream) {
    if !s.Good() then (None, s.(fail := true))
    else
      var t := SkipSpaces(s.rest);
      if t == "" then (None, Stream("", true, true))
      else
        var u := if t[0] == '-' || t[0] == '+' then t[1..] else t;
        var d := Digits(u);
        if d == "" then (None, Stream(u, u == "", true))
        else (Some(Scan(t[0] == '-', DecimalValue(d))), Stream(u[|d|..], u[|d|..] == "", false))
  }

  const SIZE_LIMIT: nat := 0x1_0000_0000_0000_0000

  /** A `size_t`. */
  type Size = n: nat | n < SIZE_LIMIT

  /** `ss >> n` for a `size_t`: a minus sign wraps around, a value out of range saturates and fails. */
  function ReadSize(s: Stream): (Size, Stream) {
    var (scan, rest) := ReadNumber(s);
    match scan
    case None => (0, rest)
    case Some(Scan(negative, m)) =>
      if m >= SIZE_LIMIT then (SIZE_LIMIT - 1, rest.(fail := true))
      else if negative then ((SIZE_LIMIT - m) % SIZE_LIMIT, rest)
      else (m, rest)
  }

  /** There is something to extract from; otherwise `ss >> n` leaves its variable as it was. */
  predicate Reaches(s: Stream) {
    s.Good() && SkipSpaces(s.rest) != ""
  }

  /** `ss >> n` for a `size_t` variable that holds `before`. */
  function ReadSizeOr(s: Stream, before: Size): (Size, Stream) {
    if Reaches(s) then ReadSize(s) else (before, ReadSize(s).1)
  }

  /** `ss >> n` for an `int`. */
  function ReadInt(s: Stream): (int, Stream) {
    var (scan, rest) := ReadNumber(s);
    match scan
    case None => (0, rest)
    case Some(number) =>
      var v := number.Value();
      if v > 0x7fff_ffff then (0x7fff_ffff, rest.(fail := true))
      else if v < -0x8000_0000 then (-0x8000_0000, rest.(fail := true))
      else (v, rest)
  }

  /** `ss >> n` for an `int` variable that holds `before`. */
  function ReadIntOr(s: Stream, before: int): int {
    if Reaches(s) then ReadInt(s).0 else before
  }

  lemma UnreachedFails(s: Stream)
    requires !Reaches(s)
    ensures ReadInt(s).1.fail && ReadSize(s).1.fail
  {
  }

  /** Reading a token that was printed after some white space gives it back. */
  lemma ReadWordBack(pre: string, w: string, post: string)
    requires Blank(pre) && IsWord(w) && EndsWord(post)
    ensures ReadWord(Open(pre + w + post)) == (w, Stream(post, post == "", false))
  {
    assert pre + w + post == pre + (w + post);
    assert (w + post)[0] == w[0];
    SkipSpacesPrefix(pre, w + post);
    WordPrefix(w, post);
    assert (w + post)[|w|..] == post;
  }

  lemma ReadNumberBack(pre: string, n: nat, post: string)
    requires Blank(pre) && (post == "" || !IsDigit(post[0]))
    ensures ReadNumber(Open(pre + Decimal(n) + post)) == (Some(Scan(false, n)), Stream(post, post == "", false))
    ensures Reaches(Open(pre + Decimal(n) + post))
  {
    hide Decimal, DecimalValue, Digits, SkipSpaces;
    var d := Decimal(n);
    FirstOf(pre, d, post);
    SkipSpacesPrefix(pre, d + post);
    DigitsPrefix(d, post);
    DecimalRoundTrip(n);
  }

  lemma FirstOf(pre: string, d: string, post: string)
    requires d != "" && AllDigits(d)
    ensures pre + d + post == pre + (d + post) && d + post != "" && IsDigit((d + post)[0]) && (d + post)[|d|..] == post
  {
    assert (d + post)[0] == d[0];
  }

  /** Numbers that do not fit their type: a `size_t` and an `int` saturate and fail. */
  lemma LargeNumbers(n: nat, post: string)
    requires post == "" || !IsDigit(post[0])
    ensures n >= SIZE_LIMIT ==>
      ReadSize(Open(Decimal(n) + post)) == (SIZE_LIMIT - 1, Stream(post, post == "", true))
    ensures n > 0x7fff_ffff ==> ReadInt(Open(Decimal(n) + post)) == (0x7fff_ffff, Stream(post, post == "", true))
    ensures n <= 0x7fff_ffff ==> ReadInt(Open(Decimal(n) + post)) == (n, Stream(post, post == "", false))
  {
    hide ReadNumber;
    ReadNumberBack("", n, post);
    assert "" + Decimal(n) + post == Decimal(n) + post;
  }

  /** Behind a minus sign a `size_t` wraps around, and an `int` is negative. */
  lemma NegativeNumbers(n: nat, post: string)
    requires (post == "" || !IsDigit(post[0])) && n > 0
    ensures n < SIZE_LIMIT ==>
      ReadSize(Open("-" + Decimal(n) + post)) == (SIZE_LIMIT - n, Stream(post, post == "", false))
    ensures n <= 0x8000_0000 ==>
      ReadInt(Open("-" + Decimal(n) + post)) == (0 - n, Stream(post, post == "", false))
    ensures n > 0x8000_0000 ==>
      ReadInt(Open("-" + Decimal(n) + post)) == (-0x8000_0000, Stream(post, post == "", true))
  {
    hide Decimal, DecimalValue, Digits;
    var d, text := Decimal(n), "-" + Decimal(n) + post;
    assert text[0] == '-' && text[1..] == d + post;
    assert SkipSpaces(text) == text;
    DigitsPrefix(d, post);
    DecimalRoundTrip(n);
    assert (d + post)[|d|..] == post;
    assert ReadNumber(Open(text)) == (Some(Scan(true, n)), Stream(post, post == "", false));
  }

  /** A plus sign changes nothing. */
  lemma PlusSign(n: nat, post: string)
    requires post == "" || !IsDigit(post[0])
    ensures ReadNumber(Open("+" + Decimal(n) + post)) == ReadNumber(Open(Decimal(n) + post))
  {
    hide Decimal, DecimalValue, Digits;
    var d, text := Decimal(n), "+" + Decimal(n) + post;
    assert text[0] == '+' && text[1..] == d + post;
    assert SkipSpaces(text) == text;
    FirstOf("", d, post);
    assert "" + d + post == d + post;
    assert SkipSpaces(d + post) == d + post;
    DigitsPrefix(d, post);
  }

  // ---- The stream object ----

  /** A `std::stringstream`, advanced in place by each extraction. */
  class StringStream {
    var state: Stream

    constructor (text: string)
      ensures state == Open(text)
    {
      state := Open(text);
    }

    method NextWord() returns (w: string)
      modifies this
      ensures (w, state) == ReadWord(old(state))
    {
      var r := ReadWord(state);
      w, state := r.0, r.1;
    }

    method NextSize(before: Size) returns (n: Size)
      modifies this
      ensures (n, state) == ReadSizeOr(old(state), before)
    {
      var r := ReadSizeOr(state, before);
      n, state := r.0, r.1;
    }

    method NextInt(before: int) returns (n: int)
      modifies this
      ensures n == ReadIntOr(old(state), before) && state == ReadInt(old(state)).1
    {
      n := ReadIntOr(state, before);
      state := ReadInt(state).1;
    }
  }
}
