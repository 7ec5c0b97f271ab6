/**
 The string operations the Telegram adapter uses, on strings whose characters stand for bytes.
 Positions, not substrings, are what the scans move along.
 */
module ByteStrings {
  /** The pattern stands at this position. */
  predicate At(s: string, p: string, i: int) {
    0 <= i && i + |p| <= |s| && s[i..i + |p|] == p
  }

  lemma AtByte(s: string, p: string, i: int, k: nat)
    requires At(s, p, i) && k < |p|
    ensures s[i + k] == p[k]
  {
    assert s[i..i + |p|][k] == s[i + k];
  }

  lemma AtPrefix(s: string, p: string, n: nat, i: int)
    requires i + |p| <= n <= |s|
    ensures At(s, p, i) <==> At(s[..n], p, i)
  {
    if i >= 0 {
      assert s[..n][i..i + |p|] == s[i..i + |p|];
    }
  }

  lemma AtSuffix(s: string, p: string, n: nat, i: nat)
    requires n <= |s|
    ensures At(s[n..], p, i) <==> At(s, p, n + i)
  {
    if n + i + |p| <= |s| {
      assert s[n..][i..i + |p|] == s[n + i..n + i + |p|];
    }
  }

  /** The last position of the pattern within the first n bytes, -1 when there is none. */
  function LastIndex(s: string, p: string, n: nat): (i: int)
    requires n <= |s|
    ensures i == -1 || 0 <= i <= n - |p|
  {
    if n < |p| then -1
    else if At(s, p, n - |p|) then n - |p|
    else if n == 0 then -1
    else LastIndex(s, p, n - 1)
  }

  lemma {:induction false} LastIndexIsLast(s: string, p: string, n: nat)
    requires n <= |s|
    ensures LastIndex(s, p, n) == -1 || At(s, p, LastIndex(s, p, n))
    ensures forall q :: LastIndex(s, p, n) < q <= n - |p| ==> !At(s, p, q)
  {
    if n > 0 {
      LastIndexIsLast(s, p, n - 1);
    }
  }

  /** The first position of a byte at or after i, -1 when there is none. */
  function IndexByte(s: string, c: char, i: nat): (j: int)
    requires i <= |s|
    ensures j == -1 || i <= j < |s|
    decreases |s| - i
  {
    if i == |s| then -1
    else if s[i] == c then i
    else IndexByte(s, c, i + 1)
  }

  lemma {:induction false} IndexByteIsFirst(s: string, c: char, i: nat)
    requires i <= |s|
    ensures IndexByte(s, c, i) >= 0 ==> s[IndexByte(s, c, i)] == c
    ensures forall q :: i <= q < |s| && s[q] == c ==> 0 <= IndexByte(s, c, i) <= q
    decreases |s| - i
  {
    if i < |s| {
      IndexByteIsFirst(s, c, i + 1);
    }
  }

  /** How often the pattern occurs from i on, counted from the left without overlap. */
  function Count(s: string, p: string, i: nat): nat
    requires p != ""
    decreases |s| - i
  {
    if i + |p| > |s| then 0
    else if At(s, p, i) then 1 + Count(s, p, i + |p|)
    else Count(s, p, i + 1)
  }

  /** Positions at which the pattern does not stand add nothing. */
  lemma {:induction false} CountSkips(s: string, p: string, i: nat, j: nat)
    requires p != "" && i <= j <= |s| && forall q :: i <= q < j ==> !At(s, p, q)
    ensures Count(s, p, i) == Count(s, p, j)
    decreases j - i
  {
    if i < j {
      CountSkips(s, p, i + 1, j);
    }
  }

  /** The first n bytes without the bytes c at their end. */
  function TrimmedEnd(s: string, c: char, n: nat): (e: nat)
    requires n <= |s|
    ensures e <= n
  {
    if n > 0 && s[n - 1] == c then TrimmedEnd(s, c, n - 1) else n
  }

  /** The first position at or after i that holds no c. */
  function TrimmedStart(s: string, c: char, i: nat): (b: nat)
    requires i <= |s|
    ensures i <= b <= |s|
    decreases |s| - i
  {
    if i < |s| && s[i] == c then TrimmedStart(s, c, i + 1) else i
  }

  lemma {:induction false} TrimmedEndIsExact(s: string, c: char, n: nat)
    requires n <= |s|
    ensures TrimmedEnd(s, c, n) > 0 ==> s[TrimmedEnd(s, c, n) - 1] != c
    ensures forall q :: TrimmedEnd(s, c, n) <= q < n ==> s[q] == c
  {
    if n > 0 && s[n - 1] == c {
      TrimmedEndIsExact(s, c, n - 1);
    }
  }

  lemma {:induction false} TrimmedStartIsExact(s: string, c: char, i: nat)
    requires i <= |s|
    ensures TrimmedStart(s, c, i) < |s| ==> s[TrimmedStart(s, c, i)] != c
    ensures forall q :: i <= q < TrimmedStart(s, c, i) ==> s[q] == c
    decreases |s| - i
  {
    if i < |s| && s[i] == c {
      TrimmedStartIsExact(s, c, i + 1);
    }
  }

  // ---- UTF-8 ----------------------------------------------------------------------

  /** A continuation byte: its two high bits are 10. */
  predicate Continues(c: char) {
    128 <= c as int < 192
  }

  predicate InRange(s: string, i: nat, lo: int, hi: int) {
    i < |s| && lo <= s[i] as int <= hi
  }

  /** The length of the character at a position, 0 when none is well formed there
      (section 4 of RFC 3629, UTF8-char). */
  function Width(s: string, i: nat): (w: nat)
    requires i <= |s|
    ensures i + w <= |s| && w <= 4 && (w > 0 ==> !Continues(s[i]))
    ensures forall q :: i < q < i + w ==> Continues(s[q])
  {
    if InRange(s, i, 0x00, 0x7F) then 1
    else if InRange(s, i, 0xC2, 0xDF) && InRange(s, i + 1, 0x80, 0xBF) then 2
    else if ((InRange(s, i, 0xE0, 0xE0) && InRange(s, i + 1, 0xA0, 0xBF))
             || (InRange(s, i, 0xE1, 0xEC) && InRange(s, i + 1, 0x80, 0xBF))
             || (InRange(s, i, 0xED, 0xED) && InRange(s, i + 1, 0x80, 0x9F))
             || (InRange(s, i, 0xEE, 0xEF) && InRange(s, i + 1, 0x80, 0xBF)))
            && InRange(s, i + 2, 0x80, 0xBF) then 3
    else if ((InRange(s, i, 0xF0, 0xF0) && InRange(s, i + 1, 0x90, 0xBF))
             || (InRange(s, i, 0xF1, 0xF3) && InRange(s, i + 1, 0x80, 0xBF))
             || (InRange(s, i, 0xF4, 0xF4) && InRange(s, i + 1, 0x80, 0x8F)))
            && InRange(s, i + 2, 0x80, 0xBF) && InRange(s, i + 3, 0x80, 0xBF) then 4
    else 0
  }

  /** The bytes from a position on are well-formed characters. */
  predicate ValidFrom(s: string, i: nat)
    requires i <= |s|
    decreases |s| - i
  {
    i == |s| || (Width(s, i) > 0 && ValidFrom(s, i + Width(s, i)))
  }

  predicate ValidUtf8(s: string) {
    ValidFrom(s, 0)
  }

  ghost predicate FourInARow(s: string, i: int) {
    0 <= i && i + 3 < |s| && Continues(s[i]) && Continues(s[i + 1]) && Continues(s[i + 2]) && Continues(s[i + 3])
  }

  /** No four continuation bytes in a row. */
  ghost predicate Sparse(s: string) {
    forall i :: !FourInARow(s, i)
  }

  lemma {:induction false} ValidFromIsSparse(s: string, i: nat)
    requires i <= |s| && ValidFrom(s, i)
    ensures i < |s| ==> !Continues(s[i])
    ensures forall q :: i <= q ==> !FourInARow(s, q)
    decreases |s| - i
  {
    if i < |s| {
      ValidFromIsSparse(s, i + Width(s, i));
    }
  }

  lemma ValidIsSparse(s: string)
    requires ValidUtf8(s)
    ensures Sparse(s)
  {
    ValidFromIsSparse(s, 0);
  }
}
