/** Splitting, joining and numbers: the text functions under the SDP code. */
module SdpText {
  import opened Arith

  // ---------------------------------------------------------------------
  // Splitting and joining

  /** Where `sep` first occurs, or the length. */
  function IndexOf(s: string, sep: char): (i: nat)
    ensures i <= |s| && (i < |s| ==> s[i] == sep) && sep !in s[..i]
  {
    if s == "" || s[0] == sep then 0
    else
      var i := IndexOf(s[1..], sep);
      assert s[..i + 1] == [s[0]] + s[1..][..i];
      i + 1
  }

  function Pieces(s: string, sep: char): seq<string>
    decreases |s|
  {
    var i := IndexOf(s, sep);
    if i == |s| then [s] else [s[..i]] + Pieces(s[i + 1..], sep)
  }

  /** The empty string has no pieces at all. */
  function Split(s: string, sep: char): seq<string> {
    if s == "" then [] else Pieces(s, sep)
  }

  function Join(tokens: seq<string>, sep: char): string
    requires tokens != []
  {
    if |tokens| == 1 then tokens[0] else tokens[0] + [sep] + Join(tokens[1..], sep)
  }

  predicate Free(tokens: seq<string>, sep: char) {
    forall i :: 0 <= i < |tokens| ==> sep !in tokens[i]
  }

  lemma IndexIs(a: string, b: string, sep: char)
    requires sep !in a
    ensures IndexOf(a + [sep] + b, sep) == |a| && IndexOf(a, sep) == |a|
  {
    var s := a + [sep] + b;
    assert s[|a|] == sep && s[..|a|] == a;
    assert forall k :: 0 <= k < |a| ==> s[k] == a[k];
    assert forall k :: |a| < k <= |s| ==> s[..k][|a|] == sep;
  }

  lemma {:induction false} PiecesBack(tokens: seq<string>, sep: char)
    requires tokens != [] && Free(tokens, sep)
    ensures Pieces(Join(tokens, sep), sep) == tokens
    decreases |tokens|
  {
    if |tokens| == 1 {
      IndexIs(tokens[0], "", sep);
    } else {
      var rest := Join(tokens[1..], sep);
      IndexIs(tokens[0], rest, sep);
      var s := tokens[0] + [sep] + rest;
      assert s[..|tokens[0]|] == tokens[0] && s[|tokens[0]| + 1..] == rest;
      PiecesBack(tokens[1..], sep);
    }
  }

  /** Splitting undoes joining. */
  lemma SplitBack(tokens: seq<string>, sep: char)
    requires tokens != [] && Free(tokens, sep) && Join(tokens, sep) != ""
    ensures Split(Join(tokens, sep), sep) == tokens
  {
    PiecesBack(tokens, sep);
  }

  // ---------------------------------------------------------------------
  // Numbers

  function Digit(d: nat): char
    requires d < 10
  {
    '0' + d as char
  }

  function ShowNat(n: nat): (s: string)
    ensures s != ""
  {
    if n < 10 then [Digit(n)] else ShowNat(n / 10) + [Digit(n % 10)]
  }

  /** A 32-bit word printed as a signed number. */
  function ShowSigned(w: nat): string
    requires w < TWO32
  {
    if w < TWO31 then ShowNat(w) else "-" + ShowNat(TWO32 - w)
  }

  predicate IsDigit(c: char) {
    '0' <= c <= '9'
  }

  predicate IsSpace(c: char) {
    c == ' ' || c == '\t' || c == '\n' || c == '\r' || c == '\U{000B}' || c == '\U{000C}'
  }

  /** The value of the digits at the start of `s`, after `acc`. */
  function ReadDigits(s: string, acc: nat): nat {
    if s == "" || !IsDigit(s[0]) then acc
    else ReadDigits(s[1..], 10 * acc + (s[0] as int - '0' as int))
  }

  function SkipSpace(s: string): string {
    if s != "" && IsSpace(s[0]) then SkipSpace(s[1..]) else s
  }

  /** An unsigned 64-bit number with an optional sign; too large a number saturates, a
      negative one wraps around. */
  function ReadUnsigned(text: string): nat {
    var s := SkipSpace(text);
    var negative := s != "" && s[0] == '-';
    var n := ReadDigits(if s != "" && (s[0] == '-' || s[0] == '+') then s[1..] else s, 0);
    if n >= TWO64 then TWO64 - 1 else if negative then (TWO64 - n) % TWO64 else n
  }

  lemma {:induction false} DigitsOnly(n: nat)
    ensures forall i :: 0 <= i < |ShowNat(n)| ==> IsDigit(ShowNat(n)[i])
  {
    if n >= 10 {
      DigitsOnly(n / 10);
    }
  }

  lemma {:induction false} ReadAppend(s: string, c: char, acc: nat)
    requires (forall i :: 0 <= i < |s| ==> IsDigit(s[i])) && IsDigit(c)
    ensures ReadDigits(s + [c], acc) == 10 * ReadDigits(s, acc) + (c as int - '0' as int)
  {
    if s == "" {
      assert s + [c] == [c] && [c][1..] == "";
    } else {
      assert (s + [c])[1..] == s[1..] + [c];
      ReadAppend(s[1..], c, 10 * acc + (s[0] as int - '0' as int));
    }
  }

  lemma {:induction false} NatBack(n: nat)
    ensures ReadDigits(ShowNat(n), 0) == n
  {
    if n < 10 {
      assert [Digit(n)][1..] == "";
    } else {
      DigitsOnly(n / 10);
      NatBack(n / 10);
      ReadAppend(ShowNat(n / 10), Digit(n % 10), 0);
    }
  }

  lemma NatRead(n: nat)
    requires n < TWO64
    ensures ReadUnsigned(ShowNat(n)) == n
  {
    NatBack(n);
    DigitsOnly(n);
    var s := ShowNat(n);
    assert IsDigit(s[0]);
  }

  /** A 32-bit word survives printing as a signed and reading as an unsigned number. */
  lemma WordBack(w: nat)
    requires w < TWO32
    ensures ReadUnsigned(ShowSigned(w)) % TWO32 == w
  {
    if w < TWO31 {
      NatRead(w);
    } else {
      var n := TWO32 - w;
      NatBack(n);
      var s := "-" + ShowNat(n);
      assert s[1..] == ShowNat(n);
      assert ReadUnsigned(s) == TWO64 - n;
      Wrap(n);
    }
  }

  lemma Wrap(n: nat)
    requires 0 < n <= TWO32
    ensures (TWO64 - n) % TWO32 == TWO32 - n || n == TWO32
  {
    assert TWO64 == TWO32 * TWO32;
    assert TWO64 - n == TWO32 * (TWO32 - 1) + (TWO32 - n);
  }

  /** Numbers contain no separator. */
  lemma NumberFree(w: nat, sep: char)
    requires w < TWO32 && !IsDigit(sep) && sep != '-'
    ensures sep !in ShowSigned(w) && ShowSigned(w) != ""
  {
    DigitsOnly(w);
    DigitsOnly(TWO32 - w);
  }
}
