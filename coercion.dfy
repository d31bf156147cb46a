/**
  `handling_bad_numbers` of src/utils.py: turn one spreadsheet answer into an
  integer. It first tries Python's `int()` on the whole entry; when that raises
  ValueError it splits `str(entry)` on runs of non-word characters
  (`re.split(r"\W+", ...)`), drops the empty pieces and calls `int()` on the
  first piece that is left. Nothing else is caught: no piece at all
  (IndexError) or a first piece that is not an integer (ValueError) escapes.

  Characters are treated as ASCII: a word character is a letter, a digit or
  `_`, and whitespace is what Python's `int()` strips from ASCII text (codes
  9-13 and 32; the separators 28-31 are not stripped).
*/
module Coercion {
  import opened Wrappers
  import opened Sequences

  /** One cell of the spreadsheet as pandas passes it in: a number, text, or NaN for an empty cell. */
  datatype Cell = Number(n: int) | Text(text: string) | Blank

  /** The two exceptions that escape `handling_bad_numbers`. */
  datatype CoerceError =
    | NoPieces                         // IndexError: the split left no non-empty piece
    | FirstPieceNotInteger(piece: string)  // ValueError from `int()` on the first piece

  predicate IsWhitespace(c: char) {
    c == ' ' || 9 <= c as int <= 13
  }

  predicate IsDigit(c: char) {
    '0' <= c <= '9'
  }

  predicate IsSign(c: char) {
    c == '+' || c == '-'
  }

  /** The ASCII members of the regular-expression class `\w`. */
  predicate IsWordChar(c: char) {
    IsDigit(c) || 'a' <= c <= 'z' || 'A' <= c <= 'Z' || c == '_'
  }

  predicate AllDigits(s: string) {
    forall i :: 0 <= i < |s| ==> IsDigit(s[i])
  }

  predicate AllWord(s: string) {
    forall i :: 0 <= i < |s| ==> IsWordChar(s[i])
  }

  predicate NoWord(s: string) {
    forall i :: 0 <= i < |s| ==> !IsWordChar(s[i])
  }

  predicate AllWhitespace(s: string) {
    forall i :: 0 <= i < |s| ==> IsWhitespace(s[i])
  }

  /** How many whitespace characters `s` starts with. */
  function LeadingWhitespace(s: string): (k: nat)
    ensures k <= |s|
    ensures forall i :: 0 <= i < k ==> IsWhitespace(s[i])
    ensures k < |s| ==> !IsWhitespace(s[k])
  {
    if |s| > 0 && IsWhitespace(s[0]) then 1 + LeadingWhitespace(s[1..]) else 0
  }

  /** Where the trailing whitespace of `s` begins. */
  function TrailingWhitespace(s: string): (k: nat)
    ensures k <= |s|
    ensures forall i :: k <= i < |s| ==> IsWhitespace(s[i])
    ensures 0 < k ==> !IsWhitespace(s[k - 1])
  {
    if |s| > 0 && IsWhitespace(s[|s| - 1]) then TrailingWhitespace(s[..|s| - 1]) else |s|
  }

  /** `s` without leading whitespace. */
  function TrimStart(s: string): string
  {
    s[LeadingWhitespace(s)..]
  }

  /** `s` without trailing whitespace. */
  function TrimEnd(s: string): string
  {
    s[..TrailingWhitespace(s)]
  }

  function DigitValue(c: char): nat
    requires IsDigit(c)
  {
    c as int - '0' as int
  }

  /** The number a string of decimal digits denotes (leading zeros allowed). */
  function DigitsValue(d: string): nat
    requires AllDigits(d)
  {
    if |d| == 0 then 0 else DigitsValue(d[..|d| - 1]) * 10 + DigitValue(d[|d| - 1])
  }

  /** An optional sign followed by at least one decimal digit, and nothing else. */
  function ParseSignedDigits(t: string): (r: Option<int>)
    ensures r.Some? <==> (|t| > 0 && AllDigits(t)) || (|t| > 1 && IsSign(t[0]) && AllDigits(t[1..]))
    ensures r.Some? ==> |t| > 0 && (IsSign(t[0]) || IsDigit(t[0]))
    ensures r.Some? ==> forall i :: 0 < i < |t| ==> IsDigit(t[i])
  {
    if |t| > 0 && IsSign(t[0]) then
      if |t| > 1 && AllDigits(t[1..]) then
        var v: int := DigitsValue(t[1..]);
        Some(if t[0] == '-' then -v else v)
      else None
    else if |t| > 0 && AllDigits(t) then Some(DigitsValue(t))
    else None
  }

  /**
    Python's `int()` on a string: the sign and digits, with surrounding
    whitespace allowed. What it accepts is built from whitespace, signs and
    digits only, and holds at least one digit.
  */
  function ParseInt(s: string): (r: Option<int>)
    ensures r.Some? ==> forall i :: 0 <= i < |s| ==> IsWhitespace(s[i]) || IsSign(s[i]) || IsDigit(s[i])
    ensures r.Some? ==> exists i :: 0 <= i < |s| && IsDigit(s[i])
  {
    var r := ParseSignedDigits(TrimEnd(TrimStart(s)));
    if r.Some? then AcceptedAlphabet(s); r else r
  }

  function DigitChar(k: nat): (c: char)
    requires k < 10
    ensures IsDigit(c) && DigitValue(c) == k
  {
    ('0' as int + k) as char
  }

  /** Python's `str()` of a non-negative integer. */
  function NatToDecimal(n: nat): (s: string)
    ensures |s| > 0 && AllDigits(s)
  {
    if n < 10 then [DigitChar(n)] else NatToDecimal(n / 10) + [DigitChar(n % 10)]
  }

  /** Python's `str()` of an integer. */
  function IntToDecimal(n: int): string
  {
    if n < 0 then "-" + NatToDecimal(-n) else NatToDecimal(n)
  }

  /** How many non-word characters `s` starts with: the length of a leading separator. */
  function SeparatorLength(s: string): (k: nat)
    ensures k <= |s|
    ensures forall i :: 0 <= i < k ==> !IsWordChar(s[i])
    ensures k < |s| ==> IsWordChar(s[k])
  {
    if |s| > 0 && !IsWordChar(s[0]) then 1 + SeparatorLength(s[1..]) else 0
  }

  /**
    `re.split(r"\W+", s)`: the pieces between maximal runs of non-word
    characters, with an empty piece before a leading run and after a trailing one.
  */
  function SplitOnNonWord(s: string): (pieces: seq<string>)
    ensures |pieces| > 0
    ensures forall i :: 0 <= i < |pieces| ==> AllWord(pieces[i])
    decreases |s|
  {
    if s == [] then [""]
    else if IsWordChar(s[0]) then
      var rest := SplitOnNonWord(s[1..]);
      [[s[0]] + rest[0]] + rest[1..]
    else [""] + SplitOnNonWord(s[SeparatorLength(s)..])
  }

  /** The list comprehension `[x for x in pieces if x]`. */
  function NonEmptyPieces(pieces: seq<string>): (r: seq<string>)
    ensures forall i :: 0 <= i < |r| ==> r[i] != "" && r[i] in pieces
  {
    if pieces == [] then []
    else KeepPiece(pieces[0]) + NonEmptyPieces(pieces[1..])
  }

  /** What one piece contributes to the comprehension: itself, unless it is empty. */
  function KeepPiece(piece: string): seq<string>
  {
    if piece == "" then [] else [piece]
  }

  /** `str(entry)`: a number in decimal, text as it is, NaN as "nan". */
  function CellText(entry: Cell): string
  {
    match entry
    case Number(n) => IntToDecimal(n)
    case Text(s) => s
    case Blank => "nan"
  }

  /** `int(entry)`: a number is kept, text is parsed, NaN raises ValueError. */
  function DirectParse(entry: Cell): Option<int>
  {
    match entry
    case Number(n) => Some(n)
    case Text(s) => ParseInt(s)
    case Blank => None
  }

  /**
    `handling_bad_numbers(entry)`. A numeric cell is kept; an error is raised
    only once the direct parse has failed; and the fallback never gives a
    negative number, because a sign is a separator there.
  */
  function HandlingBadNumbers(entry: Cell): (r: Result<int, CoerceError>)
    ensures entry.Number? ==> r == Ok(entry.n)
    ensures DirectParse(entry).Some? ==> r == Ok(DirectParse(entry).value)
    ensures r.Err? ==> DirectParse(entry).None?
    ensures DirectParse(entry).None? && r.Ok? ==> r.value >= 0
  {
    match DirectParse(entry)
    case Some(n) => Ok(n)
    case None =>
      var pieces := NonEmptyPieces(SplitOnNonWord(CellText(entry)));
      if |pieces| == 0 then Err(NoPieces)
      else
        assert pieces[0] in SplitOnNonWord(CellText(entry));
        ParseWordPiece(pieces[0]);
        match ParseInt(pieces[0])
        case Some(n) => Ok(n)
        case None => Err(FirstPieceNotInteger(pieces[0]))
  }

  // ---------------------------------------------------------------------
  // Parsing

  /** The leading-whitespace count is fixed by where the first non-whitespace character stands. */
  lemma LeadingWhitespaceIs(s: string, k: nat)
    requires k <= |s|
    requires forall i :: 0 <= i < k ==> IsWhitespace(s[i])
    requires k < |s| ==> !IsWhitespace(s[k])
    ensures LeadingWhitespace(s) == k
  {
    var m := LeadingWhitespace(s);
  }

  /** The trailing-whitespace start is fixed by where the last non-whitespace character stands. */
  lemma TrailingWhitespaceIs(s: string, k: nat)
    requires k <= |s|
    requires forall i :: k <= i < |s| ==> IsWhitespace(s[i])
    requires 0 < k ==> !IsWhitespace(s[k - 1])
    ensures TrailingWhitespace(s) == k
  {
    var m := TrailingWhitespace(s);
  }

  /** `int()` trims exactly the whitespace around a core that starts and ends with non-whitespace. */
  lemma TrimAround(before: string, x: string, after: string)
    requires AllWhitespace(before) && AllWhitespace(after)
    requires |x| > 0 && !IsWhitespace(x[0]) && !IsWhitespace(x[|x| - 1])
    ensures TrimEnd(TrimStart(before + x + after)) == x
  {
    var s := before + x + after;
    LeadingWhitespaceIs(s, |before|);
    var u := s[|before|..];
    assert u == x + after;
    TrailingWhitespaceIs(u, |x|);
  }

  lemma {:induction false} NatToDecimalValue(n: nat)
    ensures DigitsValue(NatToDecimal(n)) == n
  {
    if n >= 10 {
      var s := NatToDecimal(n);
      assert s[..|s| - 1] == NatToDecimal(n / 10);
      NatToDecimalValue(n / 10);
    }
  }

  /** A string made only of word characters parses exactly when it is all digits. */
  lemma ParseWordPiece(w: string)
    requires AllWord(w)
    ensures ParseInt(w).Some? <==> |w| > 0 && AllDigits(w)
    ensures ParseInt(w).Some? ==> ParseInt(w) == Some(DigitsValue(w))
  {
    if |w| > 0 {
      TrimAround([], w, []);
      assert [] + w + [] == w;
      assert !IsSign(w[0]);
    } else {
      assert TrimStart(w) == [];
    }
  }

  /** The part of `s` that `int()` reads, and the whitespace around it. */
  lemma TrimmedCore(s: string) returns (k: nat, e: nat)
    ensures k + e <= |s|
    ensures TrimEnd(TrimStart(s)) == s[k..k + e]
    ensures forall i :: 0 <= i < |s| && (i < k || k + e <= i) ==> IsWhitespace(s[i])
  {
    k := LeadingWhitespace(s);
    var u := s[k..];
    e := TrailingWhitespace(u);
    forall i | k + e <= i < |s|
      ensures IsWhitespace(s[i])
    {
      assert s[i] == u[i - k];
    }
  }

  /** What the sign-and-digits parse accepts after trimming is built from whitespace, signs and digits, and holds a digit. */
  lemma AcceptedAlphabet(s: string)
    requires ParseSignedDigits(TrimEnd(TrimStart(s))).Some?
    ensures forall i :: 0 <= i < |s| ==> IsWhitespace(s[i]) || IsSign(s[i]) || IsDigit(s[i])
    ensures exists i :: 0 <= i < |s| && IsDigit(s[i])
  {
    var k, e := TrimmedCore(s);
    var t := s[k..k + e];
    forall i | k <= i < k + e
      ensures t[i - k] == s[i]
    {
    }
    if IsSign(t[0]) {
      assert IsDigit(t[1]);
      assert IsDigit(s[k + 1]);
    } else {
      assert IsDigit(s[k]);
    }
  }

  /** In a string `int()` accepts, no non-word character lies between two word characters. */
  lemma ParsedDigitsContiguous(s: string, a: nat, b: nat, c: nat)
    requires a < b < c < |s|
    requires IsWordChar(s[a]) && !IsWordChar(s[b]) && IsWordChar(s[c])
    ensures ParseInt(s).None?
  {
    var k, e := TrimmedCore(s);
  }

  // ---------------------------------------------------------------------
  // Splitting

  function Flatten(pieces: seq<string>): string
  {
    if pieces == [] then [] else pieces[0] + Flatten(pieces[1..])
  }

  /** The word characters of `s`, in order. */
  function WordChars(s: string): string
  {
    if s == [] then [] else (if IsWordChar(s[0]) then [s[0]] else []) + WordChars(s[1..])
  }

  lemma {:induction false} WordCharsSkip(s: string, k: nat)
    requires k <= |s|
    requires forall i :: 0 <= i < k ==> !IsWordChar(s[i])
    ensures WordChars(s) == WordChars(s[k..])
    decreases k
  {
    if k > 0 {
      WordCharsSkip(s[1..], k - 1);
      assert s[1..][k - 1..] == s[k..];
    }
  }

  /** Splitting keeps every word character, in order: only separators are removed. */
  lemma {:induction false} SplitKeepsWordChars(s: string)
    ensures Flatten(SplitOnNonWord(s)) == WordChars(s)
    decreases |s|
  {
    if s == [] {
    } else if IsWordChar(s[0]) {
      var rest := SplitOnNonWord(s[1..]);
      SplitKeepsWordChars(s[1..]);
      var pieces := [[s[0]] + rest[0]] + rest[1..];
      assert pieces[1..] == rest[1..];
      assert Flatten(rest) == rest[0] + Flatten(rest[1..]);
      calc {
        Flatten(pieces);
        ([s[0]] + rest[0]) + Flatten(rest[1..]);
        [s[0]] + Flatten(rest);
        WordChars(s);
      }
    } else {
      var t := s[SeparatorLength(s)..];
      SplitKeepsWordChars(t);
      assert ([""] + SplitOnNonWord(t))[1..] == SplitOnNonWord(t);
      WordCharsSkip(s, SeparatorLength(s));
    }
  }

  /** A leading run of word characters is glued to the front of the first piece. */
  lemma {:induction false} SplitWordPrefix(w: string, s: string)
    requires AllWord(w)
    ensures SplitOnNonWord(w + s)[0] == w + SplitOnNonWord(s)[0]
    ensures SplitOnNonWord(w + s)[1..] == SplitOnNonWord(s)[1..]
    decreases |w|
  {
    if w == [] {
      assert w + s == s;
    } else {
      var ws := w + s;
      assert ws[0] == w[0];
      assert ws[1..] == w[1..] + s;
      SplitWordPrefix(w[1..], s);
      var rest := SplitOnNonWord(ws[1..]);
      assert SplitOnNonWord(ws) == [[w[0]] + rest[0]] + rest[1..];
      assert w == [w[0]] + w[1..];
    }
  }

  /** The separator length is fixed by where the first word character stands. */
  lemma SeparatorLengthIs(s: string, k: nat)
    requires k <= |s|
    requires forall i :: 0 <= i < k ==> !IsWordChar(s[i])
    requires k < |s| ==> IsWordChar(s[k])
    ensures SeparatorLength(s) == k
  {
    var m := SeparatorLength(s);
  }

  /** Leading separators only add empty pieces, which are then dropped. */
  lemma SplitAfterSeparators(p: string, s: string)
    requires NoWord(p)
    ensures NonEmptyPieces(SplitOnNonWord(p + s)) == NonEmptyPieces(SplitOnNonWord(s))
  {
    if p == [] {
      assert p + s == s;
    } else {
      var ps := p + s;
      var m := SeparatorLength(s);
      forall i | 0 <= i < |p| + m
        ensures !IsWordChar(ps[i])
      {
        if i >= |p| {
          assert ps[i] == s[i - |p|];
        }
      }
      if |p| + m < |ps| {
        assert ps[|p| + m] == s[m];
      }
      SeparatorLengthIs(ps, |p| + m);
      assert ps[|p| + m..] == s[m..];
      var tail := SplitOnNonWord(s[m..]);
      assert ps[0] == p[0];
      assert SplitOnNonWord(ps) == [""] + tail;
      assert ([""] + tail)[1..] == tail;
      assert NonEmptyPieces(SplitOnNonWord(ps)) == NonEmptyPieces(tail);
      if s != [] && !IsWordChar(s[0]) {
        assert SplitOnNonWord(s) == [""] + tail;
      } else {
        assert s[m..] == s;
      }
    }
  }

  /** A string without word characters splits into empty pieces only. */
  lemma NoWordNoPieces(s: string)
    requires NoWord(s)
    ensures NonEmptyPieces(SplitOnNonWord(s)) == []
  {
    if s != [] {
      SeparatorLengthIs(s, |s|);
      assert SplitOnNonWord(s) == ["", ""];
    }
  }

  /** The first non-empty piece of a string that starts with word characters ending at a separator. */
  lemma FirstPiece(w: string, c: char, rest: string)
    requires |w| > 0 && AllWord(w) && !IsWordChar(c)
    ensures NonEmptyPieces(SplitOnNonWord(w + [c] + rest)) != []
    ensures NonEmptyPieces(SplitOnNonWord(w + [c] + rest))[0] == w
  {
    assert w + [c] + rest == w + ([c] + rest);
    SplitWordPrefix(w, [c] + rest);
    assert SplitOnNonWord([c] + rest)[0] == "";
  }

  // ---------------------------------------------------------------------
  // handling_bad_numbers

  /** `int()` reads back what `str()` writes: the sign, then the digits of the magnitude. */
  lemma SignedDigitsOfDecimal(n: int)
    ensures ParseSignedDigits(IntToDecimal(n)) == Some(n)
  {
    var m: nat := if n < 0 then -n else n;
    var x := IntToDecimal(n);
    NatToDecimalValue(m);
    if n < 0 {
      assert x[0] == '-' && x[1..] == NatToDecimal(m);
    } else {
      assert !IsSign(x[0]);
    }
  }

  predicate AllZeros(z: string) {
    forall i :: 0 <= i < |z| ==> z[i] == '0'
  }

  lemma {:induction false} ZerosValue(z: string)
    requires AllZeros(z)
    ensures AllDigits(z) && DigitsValue(z) == 0
  {
    if z != [] {
      ZerosValue(z[..|z| - 1]);
    }
  }

  /** Leading zeros do not change the value of a digit string. */
  lemma {:induction false} LeadingZerosValue(z: string, d: string)
    requires AllZeros(z) && AllDigits(d)
    ensures AllDigits(z + d) && DigitsValue(z + d) == DigitsValue(d)
    decreases |d|
  {
    var zd := z + d;
    assert forall i :: 0 <= i < |zd| ==> IsDigit(zd[i]) by {
      forall i | 0 <= i < |zd|
        ensures IsDigit(zd[i])
      {
        if i >= |z| {
          assert zd[i] == d[i - |z|];
        }
      }
    }
    if d == [] {
      assert zd == z;
      ZerosValue(z);
    } else {
      LeadingZerosValue(z, d[..|d| - 1]);
      assert zd[..|zd| - 1] == z + d[..|d| - 1];
      assert zd[|zd| - 1] == d[|d| - 1];
    }
  }

  /**
    `int()` of an optional sign, any leading zeros and the decimal digits of a
    number: "+007" gives 7, "-007" gives -7, "007" gives 7.
  */
  lemma ParseSignedDigitsValue(sign: string, zeros: string, n: nat)
    requires sign == "" || sign == "+" || sign == "-"
    requires AllZeros(zeros)
    ensures ParseSignedDigits(sign + zeros + NatToDecimal(n)) == Some(if sign == "-" then -(n as int) else n as int)
  {
    var d := NatToDecimal(n);
    NatToDecimalValue(n);
    LeadingZerosValue(zeros, d);
    var u := zeros + d;
    assert sign + zeros + d == sign + u;
    if sign == "" {
      assert sign + u == u;
      UnsignedDigits(u);
    } else {
      assert sign == [sign[0]];
      SignThenDigits(sign[0], u);
    }
  }

  lemma UnsignedDigits(u: string)
    requires |u| > 0 && AllDigits(u)
    ensures ParseSignedDigits(u) == Some(DigitsValue(u))
  {
    assert IsDigit(u[0]);
  }

  lemma SignThenDigits(c: char, u: string)
    requires IsSign(c)
    requires |u| > 0 && AllDigits(u)
    ensures ParseSignedDigits([c] + u) == Some(if c == '-' then -(DigitsValue(u) as int) else DigitsValue(u) as int)
  {
    var t := [c] + u;
    assert t[0] == c && t[1..] == u;
  }

  /** An integer written out in decimal, with any surrounding whitespace, coerces back to itself. */
  lemma CoerceRendered(n: int, before: string, after: string)
    requires AllWhitespace(before) && AllWhitespace(after)
    ensures HandlingBadNumbers(Text(before + IntToDecimal(n) + after)) == Ok(n)
    ensures HandlingBadNumbers(Number(n)) == Ok(n)
  {
    var x := IntToDecimal(n);
    assert x[0] == '-' || IsDigit(x[0]);
    assert IsDigit(x[|x| - 1]);
    TrimAround(before, x, after);
    SignedDigitsOfDecimal(n);
  }

  /**
    Whitespace, an optional sign, leading zeros and the decimal digits of n,
    then whitespace: `int()` reads ±n, and so does the coercion ("+7", "007", "-07").
  */
  lemma DirectSignedDigits(before: string, sign: string, zeros: string, n: nat, after: string)
    requires AllWhitespace(before) && AllWhitespace(after)
    requires sign == "" || sign == "+" || sign == "-"
    requires AllZeros(zeros)
    ensures ParseInt(before + (sign + zeros + NatToDecimal(n)) + after) == Some(if sign == "-" then -(n as int) else n as int)
    ensures HandlingBadNumbers(Text(before + (sign + zeros + NatToDecimal(n)) + after)) == Ok(if sign == "-" then -(n as int) else n as int)
  {
    var d := NatToDecimal(n);
    var x := sign + zeros + d;
    assert x[|x| - 1] == d[|d| - 1];
    assert !IsWhitespace(x[0]) by {
      if sign != "" {
        assert x[0] == sign[0];
      } else if zeros != "" {
        assert x[0] == zeros[0];
      } else {
        assert x[0] == d[0];
      }
    }
    TrimAround(before, x, after);
    ParseSignedDigitsValue(sign, zeros, n);
  }

  /** A run of digits that only whitespace follows ends where a non-digit stands after a non-whitespace. */
  lemma DigitRunEndsAt(s: string, e: nat, n: nat)
    requires e <= |s| && 0 < n < |s|
    requires forall i :: 0 <= i < e ==> IsDigit(s[i])
    requires forall i :: e <= i < |s| ==> IsWhitespace(s[i])
    requires !IsDigit(s[n]) && !IsWhitespace(s[n - 1])
    ensures e == n
  {
  }

  /** A trimmed core that `int()` accepts, in text that opens with digits and a separator, is those digits. */
  lemma LeadingDigitsCore(d: string, c: char, rest: string, k: nat, e: nat)
    requires |d| > 0 && AllDigits(d) && !IsWordChar(c)
    requires k + e <= |d + [c] + rest|
    requires forall i :: 0 <= i < |d + [c] + rest| && (i < k || k + e <= i) ==> IsWhitespace((d + [c] + rest)[i])
    requires ParseSignedDigits((d + [c] + rest)[k..k + e]).Some?
    ensures (d + [c] + rest)[k..k + e] == d
  {
    var s := d + [c] + rest;
    var t := s[k..k + e];
    assert s[0] == d[0];
    assert k == 0 && t == s[..e];
    assert IsDigit(t[0]);
    forall i | 0 <= i < e
      ensures IsDigit(s[i])
    {
      assert s[i] == t[i];
    }
    assert s[|d|] == c && s[|d| - 1] == d[|d| - 1];
    DigitRunEndsAt(s, e, |d|);
  }

  /** If `int()` accepts digits followed by a separator, it reads just those digits. */
  lemma DirectParseOfLeadingNumber(d: string, c: char, rest: string)
    requires |d| > 0 && AllDigits(d) && !IsWordChar(c)
    requires ParseInt(d + [c] + rest).Some?
    ensures ParseInt(d + [c] + rest) == Some(DigitsValue(d))
  {
    var s := d + [c] + rest;
    var k, e := TrimmedCore(s);
    LeadingDigitsCore(d, c, rest, k, e);
    UnsignedDigits(d);
  }

  /** Digits followed by a separator give those digits, whatever follows ("7 hours", "7.5", "7-8"). */
  lemma CoerceLeadingNumber(d: string, c: char, rest: string)
    requires |d| > 0 && AllDigits(d) && !IsWordChar(c)
    ensures HandlingBadNumbers(Text(d + [c] + rest)) == Ok(DigitsValue(d))
  {
    if ParseInt(d + [c] + rest).Some? {
      DirectParseOfLeadingNumber(d, c, rest);
    } else {
      FirstPiece(d, c, rest);
      ParseWordPiece(d);
    }
  }

  /** The same, for text already known to be those digits, the separator and the rest. */
  lemma CoerceLeadingNumberOf(s: string, d: string, c: char, rest: string)
    requires |d| > 0 && AllDigits(d) && !IsWordChar(c)
    requires s == d + [c] + rest
    ensures HandlingBadNumbers(Text(s)) == Ok(DigitsValue(d))
  {
    CoerceLeadingNumber(d, c, rest);
  }

  lemma FirstPieceDecides(s: string, w: string)
    requires ParseInt(s).None?
    requires NonEmptyPieces(SplitOnNonWord(s)) != [] && NonEmptyPieces(SplitOnNonWord(s))[0] == w
    ensures HandlingBadNumbers(Text(s)) ==
      if ParseInt(w).Some? then Ok(ParseInt(w).value) else Err(FirstPieceNotInteger(w))
  {
  }

  /**
    When `int()` rejects the whole text, which is separators `p`, then a run of
    word characters `w`, then a separator or nothing: the result is the value
    of `w` if it is all digits, and a ValueError naming `w` otherwise.
  */
  lemma CoerceByFirstPiece(s: string, p: string, w: string, t: string)
    requires ParseInt(s).None?
    requires s == p + w + t
    requires NoWord(p)
    requires |w| > 0 && AllWord(w)
    requires t == [] || !IsWordChar(t[0])
    ensures HandlingBadNumbers(Text(s)) ==
      if AllDigits(w) then Ok(DigitsValue(w)) else Err(FirstPieceNotInteger(w))
  {
    FirstPieceIs(p, w, t);
    ParseWordPiece(w);
    FirstPieceDecides(s, w);
  }

  /** The first non-empty piece of separators, a word run and then a separator or nothing, is that run. */
  lemma FirstPieceIs(p: string, w: string, t: string)
    requires NoWord(p)
    requires |w| > 0 && AllWord(w)
    requires t == [] || !IsWordChar(t[0])
    ensures NonEmptyPieces(SplitOnNonWord(p + w + t)) != []
    ensures NonEmptyPieces(SplitOnNonWord(p + w + t))[0] == w
  {
    assert p + w + t == p + (w + t);
    SplitAfterSeparators(p, w + t);
    WordRunPieces(w, t);
  }

  /** A word run followed by a separator or nothing is the first piece, and a non-empty one. */
  lemma WordRunPieces(w: string, t: string)
    requires |w| > 0 && AllWord(w)
    requires t == [] || !IsWordChar(t[0])
    ensures NonEmptyPieces(SplitOnNonWord(w + t)) == [w] + NonEmptyPieces(SplitOnNonWord(t)[1..])
  {
    var split := SplitOnNonWord(w + t);
    var tail := SplitOnNonWord(t);
    SplitWordPrefix(w, t);
    assert tail[0] == "" by {
      if t != [] {
        assert !IsWordChar(t[0]);
      }
    }
    assert split[0] == w by {
      assert w + tail[0] == w;
    }
    assert split == [split[0]] + split[1..];
    NonEmptyPiecesAppend([w], tail[1..]);
    NonEmptyPiecesLine(w);
  }

  /** Python's `re.split` cuts at a leading separator: an empty piece, then the pieces of the rest. */
  lemma SplitAtSeparator(sep: string, s: string)
    requires |sep| > 0 && NoWord(sep)
    requires s == [] || IsWordChar(s[0])
    ensures SplitOnNonWord(sep + s) == [""] + SplitOnNonWord(s)
  {
    var x := sep + s;
    assert x[0] == sep[0];
    if s != [] {
      assert x[|sep|] == s[0];
    }
    SeparatorLengthIs(x, |sep|);
    assert x[|sep|..] == s;
  }

  /** A single piece is kept exactly when it is not empty. */
  lemma NonEmptyPiecesLine(piece: string)
    ensures NonEmptyPieces([piece]) == if piece == "" then [] else [piece]
  {
    assert [piece][1..] == [];
  }

  /** The comprehension keeps the non-empty pieces of each part, in order. */
  lemma {:induction false} NonEmptyPiecesAppend(a: seq<string>, b: seq<string>)
    ensures NonEmptyPieces(a + b) == NonEmptyPieces(a) + NonEmptyPieces(b)
  {
    if a == [] {
      assert a + b == b;
    } else {
      NonEmptyPiecesAppend(a[1..], b);
      calc {
        NonEmptyPieces(a + b);
        { ConsAppend(a, b); }
        KeepPiece(a[0]) + NonEmptyPieces(a[1..] + b);
        KeepPiece(a[0]) + NonEmptyPieces(a[1..]) + NonEmptyPieces(b);
      }
    }
  }

  /** `int()` rejects digits that a separator parts from a later word character. */
  lemma DigitsThenWordRejected(p: string, d: string, t: string, j: nat)
    requires |d| > 0 && AllDigits(d)
    requires 0 < j < |t| && !IsWordChar(t[0]) && IsWordChar(t[j])
    ensures ParseInt(p + d + t).None?
  {
    var s := p + d + t;
    var a, b, e := |p|, |p| + |d|, |p| + |d| + j;
    assert s[a] == d[0];
    assert IsDigit(d[0]);
    assert s[b] == t[0];
    assert s[e] == t[j];
    ParsedDigitsContiguous(s, a, b, e);
  }

  /**
    Separators before the digits are skipped, so a leading sign is lost once
    something after the number stops the direct parse ("-3 hours" gives 3).
  */
  lemma CoerceSkipsLeadingSeparators(p: string, d: string, c: char, rest: string, j: nat)
    requires NoWord(p)
    requires |d| > 0 && AllDigits(d) && !IsWordChar(c)
    requires j < |rest| && IsWordChar(rest[j])
    ensures HandlingBadNumbers(Text(p + d + [c] + rest)) == Ok(DigitsValue(d))
  {
    var t := [c] + rest;
    assert p + d + [c] + rest == p + d + t;
    assert t[0] == c && t[j + 1] == rest[j];
    DigitsThenWordRejected(p, d, t, j + 1);
    CoerceByFirstPiece(p + d + t, p, d, t);
  }

  /** `int()` rejects a string whose first character after the separators is a non-digit word character. */
  lemma WordFirstRejected(p: string, l: char, rest: string)
    requires NoWord(p)
    requires IsWordChar(l) && !IsDigit(l)
    ensures ParseInt(p + ([l] + rest)).None?
  {
    var s := p + ([l] + rest);
    assert s[|p|] == l;
  }

  /** After leading separators, the first piece is the run of word characters that follows. */
  lemma FirstPieceAfterSeparators(p: string, l: char, rest: string)
    requires NoWord(p)
    requires IsWordChar(l)
    ensures NonEmptyPieces(SplitOnNonWord(p + ([l] + rest))) != []
    ensures NonEmptyPieces(SplitOnNonWord(p + ([l] + rest)))[0] == [l] + SplitOnNonWord(rest)[0]
  {
    var x := [l] + rest;
    SplitAfterSeparators(p, x);
    SplitWordPrefix([l], rest);
    assert SplitOnNonWord(x)[0] != "";
  }

  /**
    When the first word character is not a digit the entry is rejected, even if
    digits come later ("about 7 hours", "seven").
  */
  lemma CoerceWordFirstFails(p: string, l: char, rest: string)
    requires NoWord(p)
    requires IsWordChar(l) && !IsDigit(l)
    ensures HandlingBadNumbers(Text(p + [l] + rest)).Err?
    ensures HandlingBadNumbers(Text(p + [l] + rest)).error.FirstPieceNotInteger?
  {
    var s := p + ([l] + rest);
    assert p + [l] + rest == s;
    WordFirstRejected(p, l, rest);
    FirstPieceAfterSeparators(p, l, rest);
    var first := [l] + SplitOnNonWord(rest)[0];
    assert AllWord(first) && first[0] == l;
    ParseWordPiece(first);
    FirstPieceDecides(s, first);
  }

  /** An entry with no word character at all fails with IndexError ("", "-", "?"). */
  lemma CoerceNoWordFails(s: string)
    requires NoWord(s)
    ensures HandlingBadNumbers(Text(s)) == Err(NoPieces)
  {
    NoWordNoPieces(s);
  }

  /** An empty cell (NaN) always aborts: `str(nan)` is "nan", whose only piece is not a number. */
  lemma CoerceBlankFails(entry: Cell)
    requires entry.Blank?
    ensures HandlingBadNumbers(entry) == Err(FirstPieceNotInteger("nan"))
  {
    var nan := CellText(entry);
    SplitWordPrefix(nan, []);
    assert nan + [] == nan;
    ParseWordPiece(nan);
    assert !IsDigit(nan[0]);
  }

  /** A whole entry that `int()` accepts is used as it is: "7" gives 7. */
  lemma CoerceExampleDirect(s: string)
    requires s == "7"
    ensures HandlingBadNumbers(Text(s)) == Ok(7)
  {
    assert s == IntToDecimal(7);
    CoerceRendered(7, "", "");
    assert "" + s + "" == s;
  }

  /** A negative number written out is kept with its sign: "-3" gives -3. */
  lemma CoerceExampleNegative(s: string)
    requires s == "-3"
    ensures HandlingBadNumbers(Text(s)) == Ok(-3)
  {
    assert s == IntToDecimal(-3);
    CoerceRendered(-3, "", "");
    assert "" + s + "" == s;
  }

  lemma Uncons(s: string)
    requires |s| > 0
    ensures s == [] + [s[0]] + s[1..]
  {
  }

  /** A one-character digit string has that digit's value. */
  lemma SingleDigitValue(d: string)
    requires |d| == 1 && IsDigit(d[0])
    ensures AllDigits(d) && DigitsValue(d) == DigitValue(d[0])
  {
    assert d[..0] == [];
  }

  /** A leading number followed by a separator is read on its own: "7 hours", "7.5" and "7-8" all give 7. */
  lemma CoerceExamplesLeadingNumber(s: string)
    requires s == "7 hours" || s == "7.5" || s == "7-8"
    ensures HandlingBadNumbers(Text(s)) == Ok(7)
  {
    assert s[0] == '7' && !IsWordChar(s[1]);
    CoerceDigitThenSeparator(s);
  }

  /** A single digit followed by a separator gives that digit, whatever follows. */
  lemma CoerceDigitThenSeparator(s: string)
    requires |s| >= 2 && IsDigit(s[0]) && !IsWordChar(s[1])
    ensures HandlingBadNumbers(Text(s)) == Ok(DigitValue(s[0]))
  {
    var d := s[..1];
    SingleDigitValue(d);
    assert d[0] == s[0];
    TwoHeads(s);
    CoerceLeadingNumberOf(s, d, s[1], s[2..]);
  }

  /** A plus sign and leading zeros are accepted by the direct parse: "+7" and "007" give 7, "-07" gives -7. */
  lemma CoerceExamplesSignAndZeros(s: string)
    requires s == "+7" || s == "007" || s == "-07"
    ensures HandlingBadNumbers(Text(s)) == Ok(if s[0] == '-' then -7 else 7)
  {
    var seven := NatToDecimal(7);
    assert seven == "7";
    var sign := if s[0] == '0' then "" else s[..1];
    var zeros := s[|sign|..|s| - 1];
    assert s == "" + (sign + zeros + seven) + "";
    DirectSignedDigits("", sign, zeros, 7, "");
  }

  /** "-3 hours" gives 3: the minus sign is a separator once the direct parse fails. */
  lemma CoerceExampleSignLost(s: string)
    requires s == "-3 hours"
    ensures HandlingBadNumbers(Text(s)) == Ok(3)
  {
    var d := s[1..2];
    ThreeHeads(s);
    assert NoWord(s[..1]) by {
      assert s[..1][0] == '-';
    }
    SingleDigitValue(d);
    assert s[3..][0] == 'h';
    CoerceSkipsLeadingSeparators(s[..1], d, s[2], s[3..], 0);
  }

  /** `int()` refuses text holding a character that is neither whitespace, a sign nor a digit. */
  lemma OutsideAlphabetRejected(s: string, i: nat)
    requires i < |s| && !IsWhitespace(s[i]) && !IsSign(s[i]) && !IsDigit(s[i])
    ensures ParseInt(s).None?
  {
  }

  /**
    An information separator (code 28) is not whitespace to `int()`, so
    "\x1c-7" is not parsed directly; the fallback then reads 7, the sign lost.
  */
  lemma CoerceExampleSeparatorCode(s: string)
    requires s == [28 as char, '-', '7']
    ensures HandlingBadNumbers(Text(s)) == Ok(7)
  {
    var p := [28 as char, '-'];
    assert s == p + "7" + [];
    OutsideAlphabetRejected(s, 0);
    assert NoWord(p) by {
      assert p[0] == s[0] && p[1] == '-';
    }
    CoerceByFirstPiece(s, p, "7", []);
    assert DigitsValue("7") == 7;
  }

  /** "about 7 hours" and "seven" abort; so does an empty answer. */
  lemma CoerceExamplesRejected(about: string, seven: string, empty: string)
    requires about == "about 7 hours" && seven == "seven" && empty == ""
    ensures HandlingBadNumbers(Text(about)).Err?
    ensures HandlingBadNumbers(Text(seven)).Err?
    ensures HandlingBadNumbers(Text(empty)) == Err(NoPieces)
  {
    Uncons(about);
    CoerceWordFirstFails([], about[0], about[1..]);
    Uncons(seven);
    CoerceWordFirstFails([], seven[0], seven[1..]);
    CoerceNoWordFails(empty);
  }
}
