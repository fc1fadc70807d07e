/**
 * String helpers shared by the four clients: ordinal substring search
 * (String.IndexOf), ASCII upper-casing, the HttpHelper.ExtractValue and
 * HttpHelper.ParseCookie helpers (identical copies in every client), and the
 * CR/LF trimming loops of the web-form clients.
 */
module Text {

  /** A value, or the message of the exception that prevented it. */
  datatype Result<T> = Ok(value: T) | Err(error: string)

  datatype Option<T> = None | Some(value: T) {
    function GetOr(default: T): T {
      match this
      case Some(v) => v
      case None => default
    }
  }

  /** `pat` occurs in `s` starting at position `k`. */
  predicate OccursAt(s: string, pat: string, k: int) {
    0 <= k && k + |pat| <= |s| && s[k..k + |pat|] == pat
  }

  /**
   * String.IndexOf(pat, from) with ordinal comparison: the first position at
   * or after `from` where `pat` occurs, or -1 when there is none.
   */
  function IndexOfFrom(s: string, pat: string, from: nat): (r: int)
    requires from <= |s|
    ensures r == -1 || (from <= r && OccursAt(s, pat, r))
    ensures forall k :: from <= k && (r == -1 || k < r) ==> !OccursAt(s, pat, k)
    decreases |s| - from
  {
    if OccursAt(s, pat, from) then from
    else if from == |s| then -1
    else IndexOfFrom(s, pat, from + 1)
  }

  /** String.IndexOf(pat): the first occurrence of `pat` in `s`, or -1. */
  function IndexOf(s: string, pat: string): int {
    IndexOfFrom(s, pat, 0)
  }

  /** `s.IndexOf(pat) > -1`, the membership test the clients use. */
  predicate Contains(s: string, pat: string) {
    IndexOf(s, pat) > -1
  }

  /** The first occurrence of `pat` at or after `from` is at `k`. */
  predicate FirstFrom(s: string, pat: string, from: int, k: int) {
    from <= k && OccursAt(s, pat, k) && forall j :: from <= j < k ==> !OccursAt(s, pat, j)
  }

  /** IndexOfFrom finds exactly the first occurrence, and -1 means none at all. */
  lemma IndexOfFromIsFirst(s: string, pat: string, from: nat, k: int)
    requires from <= |s| && 0 <= k
    ensures FirstFrom(s, pat, from, k) <==> IndexOfFrom(s, pat, from) == k
  {
  }

  /** Contains holds exactly when some occurrence exists, and IndexOf then points at one. */
  lemma ContainsIff(s: string, pat: string)
    ensures Contains(s, pat) <==> exists k :: OccursAt(s, pat, k)
    ensures Contains(s, pat) ==> OccursAt(s, pat, IndexOf(s, pat))
  {
  }

  /** An occurrence of a one-character pattern is an index holding that character. */
  lemma OccursAtChar(s: string, c: char, k: int)
    ensures OccursAt(s, [c], k) <==> (0 <= k < |s| && s[k] == c)
  {
    if 0 <= k < |s| {
      assert s[k..k + 1] == [s[k]];
    }
  }

  /** Position `k` holds the first `c` of `s`. */
  predicate FirstAt(s: string, c: char, k: int) {
    0 <= k < |s| && s[k] == c && c !in s[..k]
  }

  /** The first `c` of `s` is at `k`. */
  lemma FirstChar(s: string, c: char, k: int)
    requires FirstAt(s, c, k)
    ensures IndexOf(s, [c]) == k
  {
    OccursAtChar(s, c, k);
    forall j | 0 <= j < k ensures !OccursAt(s, [c], j) {
      OccursAtChar(s, c, j);
      assert s[j] == s[..k][j];
    }
    IndexOfFromIsFirst(s, [c], 0, k);
  }

  /** A character absent from `s` is not found. */
  lemma NoChar(s: string, c: char)
    requires c !in s
    ensures IndexOf(s, [c]) == -1
  {
    var r := IndexOf(s, [c]);
    if r != -1 {
      OccursAtChar(s, c, r);
    }
  }

  /** IndexOf of a single character finds its first position, and -1 exactly when it is absent. */
  lemma IndexOfChar(s: string, c: char)
    ensures var r := IndexOf(s, [c]);
      (r == -1 <==> c !in s) && (r != -1 ==> FirstAt(s, c, r))
  {
    var r := IndexOf(s, [c]);
    if r != -1 {
      OccursAtChar(s, c, r);
      forall j | 0 <= j < r ensures s[j] != c {
        OccursAtChar(s, c, j);
      }
    } else {
      forall j | 0 <= j < |s| ensures s[j] != c {
        OccursAtChar(s, c, j);
      }
    }
  }

  /** No character has two first positions. */
  lemma FirstAtUnique(s: string, c: char, i: int, j: int)
    requires FirstAt(s, c, i) && FirstAt(s, c, j)
    ensures i == j
  {
  }

  // ---------------------------------------------------------------------------
  // Decimal digits (int.Parse and int.ToString on unsigned decimal text)

  predicate IsDigit(c: char) {
    '0' <= c <= '9'
  }

  predicate AllDigits(s: string) {
    forall i :: 0 <= i < |s| ==> IsDigit(s[i])
  }

  function DigitChar(d: nat): (c: char)
    requires d < 10
    ensures IsDigit(c)
  {
    ('0' as int + d) as char
  }

  function DigitValue(c: char): nat
    requires IsDigit(c)
  {
    c as int - '0' as int
  }

  /** The value of a decimal numeral, most significant digit first. */
  function Number(s: string): nat
    requires AllDigits(s)
  {
    if s == [] then 0 else Number(s[..|s| - 1]) * 10 + DigitValue(s[|s| - 1])
  }

  function Pow10(w: nat): nat {
    if w == 0 then 1 else 10 * Pow10(w - 1)
  }

  /** `n` written with exactly `width` digits, zero-padded on the left. */
  function Pad(n: nat, width: nat): (s: string)
    ensures |s| == width && AllDigits(s)
  {
    if width == 0 then [] else Pad(n / 10, width - 1) + [DigitChar(n % 10)]
  }

  /** Reading back a zero-padded numeral gives the number, when it fits the width. */
  lemma {:induction false} NumberPad(n: nat, width: nat)
    requires n < Pow10(width)
    ensures Number(Pad(n, width)) == n
  {
    if width > 0 {
      var p := Pad(n / 10, width - 1);
      var s := Pad(n, width);
      assert s[..width - 1] == p;
      assert n / 10 < Pow10(width - 1);
      NumberPad(n / 10, width - 1);
    }
  }

  // ---------------------------------------------------------------------------
  // ASCII upper-casing (String.ToUpper restricted to ASCII letters)

  function UpperChar(c: char): char {
    if 'a' <= c <= 'z' then (c as int - 32) as char else c
  }

  function Upper(s: string): (r: string)
    ensures |r| == |s|
    ensures forall i :: 0 <= i < |s| ==> r[i] == UpperChar(s[i])
  {
    if s == [] then [] else [UpperChar(s[0])] + Upper(s[1..])
  }

  /** Two characters are equal when ASCII case is ignored. */
  predicate SameLetterIgnoringCase(a: char, b: char) {
    UpperChar(a) == UpperChar(b)
  }

  /**
   * Upper-casing compares against an upper-case word exactly when the text
   * spells that word with any mix of cases.
   */
  lemma UpperEqualsIff(s: string, word: string)
    requires Upper(word) == word
    ensures Upper(s) == word <==>
      (|s| == |word| && forall i :: 0 <= i < |s| ==> SameLetterIgnoringCase(s[i], word[i]))
  {
    if Upper(s) == word {
      forall i | 0 <= i < |s| ensures SameLetterIgnoringCase(s[i], word[i]) {
        assert UpperChar(s[i]) == Upper(s)[i] == word[i];
        assert UpperChar(word[i]) == Upper(word)[i] == word[i];
      }
    }
  }

  // ---------------------------------------------------------------------------
  // HttpHelper.ExtractValue and HttpHelper.ParseCookie

  /**
   * `data` has its first `from` at `i` and the first `to` that starts at or
   * after the end of that `from` at `j`.
   */
  predicate Delimits(data: string, from: string, to: string, i: int, j: int) {
    FirstFrom(data, from, 0, i) && FirstFrom(data, to, i + |from|, j)
  }

  /**
   * ExtractValue: the text between the first `from` and the first `to` that
   * begins after that `from`; None (the source's null) when either is missing.
   */
  function ExtractValue(data: string, from: string, to: string): (r: Option<string>)
    ensures r.Some? <==> exists i, j :: Delimits(data, from, to, i, j)
    ensures forall i, j :: Delimits(data, from, to, i, j) ==>
      i + |from| <= j <= |data| && r == Some(data[i + |from|..j])
  {
    var i1 := IndexOf(data, from);
    if i1 > -1 then
      var i2 := IndexOfFrom(data, to, i1 + |from|);
      IndexOfFromIsFirst(data, from, 0, i1);
      if i2 > -1 then
        IndexOfFromIsFirst(data, to, i1 + |from|, i2);
        assert Delimits(data, from, to, i1, i2);
        DelimitsUnique(data, from, to, i1, i2);
        Some(data[i1 + |from|..i2])
      else
        NoDelimits(data, from, to, i1);
        None
    else
      NoFrom(data, from, to);
      None
  }

  lemma DelimitsUnique(data: string, from: string, to: string, i: int, j: int)
    requires Delimits(data, from, to, i, j)
    ensures forall i', j' :: Delimits(data, from, to, i', j') ==> i' == i && j' == j
  {
    forall i', j' | Delimits(data, from, to, i', j') ensures i' == i && j' == j {
    }
  }

  lemma NoDelimits(data: string, from: string, to: string, i: int)
    requires FirstFrom(data, from, 0, i)
    requires IndexOfFrom(data, to, i + |from|) == -1
    ensures forall i', j :: !Delimits(data, from, to, i', j)
  {
    forall i', j | Delimits(data, from, to, i', j) ensures false {
    }
  }

  lemma NoFrom(data: string, from: string, to: string)
    requires IndexOf(data, from) == -1
    ensures forall i, j :: !Delimits(data, from, to, i, j)
  {
  }

  /**
   * ParseCookie rebuilds an "s=...;skf=..." cookie from a Set-Cookie header;
   * a missing part concatenates as the empty string, as a null string does.
   */
  function ParseCookie(cookie: string): (r: string)
    ensures exists s, skf :: r == "s=" + s + ";skf=" + skf
    ensures ExtractValue(cookie, "s=", ";").None? && ExtractValue(cookie, "skf=", ";").None?
      ==> r == "s=;skf="
  {
    var s := ExtractValue(cookie, "s=", ";").GetOr("");
    var skf := ExtractValue(cookie, "skf=", ";").GetOr("");
    assert "s=" + s + ";skf=" + skf == "s=" + s + ";skf=" + skf;
    "s=" + s + ";skf=" + skf
  }

  /**
   * ParseCookie puts the extracted `s` and `skf` values in place: each part
   * is the text between its key and the first ';' after it, and the empty
   * string when that part is missing.
   */
  lemma ParseCookieParts(cookie: string, i: int, j: int, i2: int, j2: int)
    requires Delimits(cookie, "s=", ";", i, j) && Delimits(cookie, "skf=", ";", i2, j2)
    ensures ParseCookie(cookie) == "s=" + cookie[i + 2..j] + ";skf=" + cookie[i2 + 4..j2]
  {
  }

  lemma ParseCookieWithoutSkf(cookie: string, i: int, j: int)
    requires Delimits(cookie, "s=", ";", i, j) && ExtractValue(cookie, "skf=", ";").None?
    ensures ParseCookie(cookie) == "s=" + cookie[i + 2..j] + ";skf="
  {
  }

  lemma ParseCookieWithoutS(cookie: string, i2: int, j2: int)
    requires ExtractValue(cookie, "s=", ";").None? && Delimits(cookie, "skf=", ";", i2, j2)
    ensures ParseCookie(cookie) == "s=;skf=" + cookie[i2 + 4..j2]
  {
  }

  // ---------------------------------------------------------------------------
  // CR/LF trimming of a response body

  predicate IsLineBreak(c: char) {
    c == '\r' || c == '\n'
  }

  predicate AllLineBreaks(s: string) {
    forall i :: 0 <= i < |s| ==> IsLineBreak(s[i])
  }

  /** The body with every leading CR and LF removed. */
  function DropLeadingBreaks(s: string): string {
    if |s| > 0 && IsLineBreak(s[0]) then DropLeadingBreaks(s[1..]) else s
  }

  /** The body with every trailing CR and LF removed. */
  function DropTrailingBreaks(s: string): string {
    if |s| > 0 && IsLineBreak(s[|s| - 1]) then DropTrailingBreaks(s[..|s| - 1]) else s
  }

  /** What the two trimming loops leave of a body. */
  function Trimmed(s: string): string {
    DropTrailingBreaks(DropLeadingBreaks(s))
  }

  lemma {:induction false} DropLeadingShape(s: string)
    ensures var r := DropLeadingBreaks(s);
      |r| <= |s| && s[|s| - |r|..] == r && AllLineBreaks(s[..|s| - |r|])
      && (|r| == 0 || !IsLineBreak(r[0]))
  {
    if |s| > 0 && IsLineBreak(s[0]) {
      DropLeadingShape(s[1..]);
      var r := DropLeadingBreaks(s[1..]);
      assert s[..|s| - |r|] == [s[0]] + s[1..][..|s| - 1 - |r|];
    }
  }

  lemma {:induction false} DropTrailingShape(s: string)
    ensures var r := DropTrailingBreaks(s);
      |r| <= |s| && s[..|r|] == r && AllLineBreaks(s[|r|..])
      && (|r| == 0 || !IsLineBreak(r[|r| - 1]))
  {
    if |s| > 0 && IsLineBreak(s[|s| - 1]) {
      var t := s[..|s| - 1];
      DropTrailingShape(t);
      var r := DropTrailingBreaks(t);
      assert s[|r|..] == t[|r|..] + [s[|s| - 1]];
    }
  }

  /** Trimming keeps a contiguous piece of the body and removes only line breaks around it. */
  lemma TrimmedSlice(s: string)
    ensures var t := Trimmed(s); var k := |s| - |DropLeadingBreaks(s)|;
      0 <= k && k + |t| <= |s| && s[k..k + |t|] == t
      && AllLineBreaks(s[..k]) && AllLineBreaks(s[k + |t|..])
  {
    var m := DropLeadingBreaks(s);
    var t := DropTrailingBreaks(m);
    var k := |s| - |m|;
    assert |m| <= |s| && s[k..] == m && AllLineBreaks(s[..k]) by {
      DropLeadingShape(s);
    }
    assert |t| <= |m| && m[..|t|] == t && AllLineBreaks(m[|t|..]) by {
      DropTrailingShape(m);
    }
    assert s[k..k + |t|] == t by {
      assert s[k..k + |t|] == s[k..][..|t|];
    }
    assert AllLineBreaks(s[k + |t|..]) by {
      assert s[k + |t|..] == m[|t|..];
    }
  }

  /** Neither end of a trimmed body is a CR or an LF. */
  lemma TrimmedEnds(s: string)
    ensures var t := Trimmed(s);
      |t| == 0 || (!IsLineBreak(t[0]) && !IsLineBreak(t[|t| - 1]))
  {
    var m := DropLeadingBreaks(s);
    var t := DropTrailingBreaks(m);
    assert |m| == 0 || !IsLineBreak(m[0]) by {
      DropLeadingShape(s);
    }
    assert |t| <= |m| && m[..|t|] == t && (|t| == 0 || !IsLineBreak(t[|t| - 1])) by {
      DropTrailingShape(m);
    }
    assert |t| > 0 ==> t[0] == m[0];
  }

  /**
   * The two `while` loops of the web-form clients: strip leading CR/LF one
   * character at a time, then trailing CR/LF one character at a time.
   */
  method TrimLineBreaks(body: string) returns (t: string)
    ensures t == Trimmed(body)
  {
    t := body;
    while |t| > 0 && IsLineBreak(t[0])
      invariant DropLeadingBreaks(t) == DropLeadingBreaks(body)
      decreases |t|
    {
      t := t[1..];
    }
    ghost var lead := t;
    while |t| > 0 && IsLineBreak(t[|t| - 1])
      invariant DropTrailingBreaks(t) == DropTrailingBreaks(lead)
      decreases |t|
    {
      t := t[..|t| - 1];
    }
  }
}
