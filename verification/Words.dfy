/**
 Text as words: Go's strings.Fields, strings.TrimSpace, splitting and joining.
 */
module Words {
  /** unicode.IsSpace. */
  predicate Space(ch: char) {
    ch == ' ' || ch == '\t' || ch == '\n' || ch == '\U{000B}' || ch == '\U{000C}' || ch == '\r'
    || ch == '\U{0085}' || ch == '\U{00A0}' || ch == '\U{1680}' || '\U{2000}' <= ch <= '\U{200A}'
    || ch == '\U{2028}' || ch == '\U{2029}' || ch == '\U{202F}' || ch == '\U{205F}' || ch == '\U{3000}'
  }

  /** The letters up to the first space. */
  function Head(s: string): (w: string)
    ensures w <= s && (forall ch :: ch in w ==> !Space(ch)) && (|w| < |s| ==> Space(s[|w|]))
  {
    if s == "" || Space(s[0]) then "" else [s[0]] + Head(s[1..])
  }

  function Fields(s: string): seq<string>
    decreases |s|
  {
    if s == "" then []
    else if Space(s[0]) then Fields(s[1..])
    else [Head(s)] + Fields(s[|Head(s)|..])
  }

  predicate IsWord(w: string) {
    w != "" && forall ch :: ch in w ==> !Space(ch)
  }

  lemma {:induction false} HeadStops(a: string, sp: char, b: string)
    requires Space(sp)
    ensures Head(a + [sp] + b) == Head(a)
  {
    var s := a + [sp] + b;
    if a != "" && !Space(a[0]) {
      HeadStops(a[1..], sp, b);
      assert s[1..] == a[1..] + [sp] + b && s[0] == a[0];
    } else {
      assert s[0] == if a == "" then sp else a[0];
    }
  }

  /** A space between two texts keeps their words apart. */
  lemma {:induction false} FieldsAround(a: string, sp: char, b: string)
    requires Space(sp)
    ensures Fields(a + [sp] + b) == Fields(a) + Fields(b)
    decreases |a|
  {
    var s := a + [sp] + b;
    if a == "" {
      assert s[1..] == b && s[0] == sp;
    } else if Space(a[0]) {
      assert s[1..] == a[1..] + [sp] + b && s[0] == a[0];
      FieldsAround(a[1..], sp, b);
    } else {
      var w := Head(a);
      HeadStops(a, sp, b);
      assert s[|w|..] == a[|w|..] + [sp] + b && s[0] == a[0];
      FieldsAround(a[|w|..], sp, b);
    }
  }

  lemma {:induction false} FieldsAreWords(s: string)
    ensures forall w :: w in Fields(s) ==> IsWord(w)
    decreases |s|
  {
    if s != "" {
      FieldsAreWords(if Space(s[0]) then s[1..] else s[|Head(s)|..]);
    }
  }

  lemma {:induction false} OneWord(w: string)
    requires IsWord(w)
    ensures Fields(w) == [w]
  {
    WholeHead(w);
  }

  lemma {:induction false} WholeHead(w: string)
    requires forall ch :: ch in w ==> !Space(ch)
    ensures Head(w) == w
  {
    if w != "" {
      assert w[0] in w;
      WholeHead(w[1..]);
    }
  }

  // ---- Trimming ----------------------------------------------------------------------

  function TrimStart(s: string): string {
    if s != "" && Space(s[0]) then TrimStart(s[1..]) else s
  }

  function TrimEnd(s: string): string {
    if s != "" && Space(s[|s| - 1]) then TrimEnd(s[..|s| - 1]) else s
  }

  function TrimSpace(s: string): string {
    TrimEnd(TrimStart(s))
  }

  lemma {:induction false} TrimStartKeeps(s: string)
    ensures Fields(TrimStart(s)) == Fields(s)
  {
    if s != "" && Space(s[0]) {
      TrimStartKeeps(s[1..]);
    }
  }

  lemma {:induction false} TrimEndKeeps(s: string)
    ensures Fields(TrimEnd(s)) == Fields(s)
  {
    if s != "" && Space(s[|s| - 1]) {
      var front, last := s[..|s| - 1], s[|s| - 1];
      TrimEndKeeps(front);
      FieldsAround(front, last, "");
      assert front + [last] + "" == s;
    }
  }

  lemma TrimKeeps(s: string)
    ensures Fields(TrimSpace(s)) == Fields(s)
  {
    TrimStartKeeps(s);
    TrimEndKeeps(TrimStart(s));
  }

  // ---- Lines -------------------------------------------------------------------------

  function Join(parts: seq<string>, sep: string): string {
    if parts == [] then "" else if |parts| == 1 then parts[0] else parts[0] + sep + Join(parts[1..], sep)
  }

  /** The words of several texts, in order. */
  function FieldsOf(texts: seq<string>): seq<string> {
    if texts == [] then [] else FieldsOf(texts[..|texts| - 1]) + Fields(texts[|texts| - 1])
  }

  lemma {:induction false} FieldsOfAppend(a: seq<string>, b: seq<string>)
    ensures FieldsOf(a + b) == FieldsOf(a) + FieldsOf(b)
    decreases |b|
  {
    if b == [] {
      assert a + b == a;
    } else {
      FieldsOfAppend(a, b[..|b| - 1]);
      assert (a + b)[..|a + b| - 1] == a + b[..|b| - 1];
    }
  }

  lemma FieldsOfOne(a: string)
    ensures FieldsOf([a]) == Fields(a)
  {
  }

  /** Joining texts at spaces keeps their words. */
  lemma {:induction false} FieldsOfJoin(parts: seq<string>, sep: string)
    requires sep != "" && forall ch :: ch in sep ==> Space(ch)
    ensures Fields(Join(parts, sep)) == FieldsOf(parts)
    decreases |parts|
  {
    if |parts| == 1 {
      FieldsOfOne(parts[0]);
      assert parts == [parts[0]];
    } else if |parts| > 1 {
      var rest := Join(parts[1..], sep);
      FieldsOfJoin(parts[1..], sep);
      SeparatorSplits(parts[0], sep, rest);
      FieldsOfOne(parts[0]);
      FieldsOfAppend([parts[0]], parts[1..]);
      assert parts == [parts[0]] + parts[1..];
    }
  }

  lemma {:induction false} SeparatorSplits(a: string, sep: string, b: string)
    requires sep != "" && forall ch :: ch in sep ==> Space(ch)
    ensures Fields(a + sep + b) == Fields(a) + Fields(b)
    decreases |sep|
  {
    assert sep[0] in sep;
    if |sep| == 1 {
      FieldsAround(a, sep[0], b);
      assert sep == [sep[0]];
    } else {
      FieldsAround(a, sep[0], sep[1..] + b);
      assert a + sep + b == a + [sep[0]] + (sep[1..] + b);
      SeparatorSplits("", sep[1..], b);
      assert "" + sep[1..] + b == sep[1..] + b;
    }
  }

  /** A text's words on one line are its words. */
  lemma OneLineKeeps(s: string)
    ensures Fields(Join(Fields(s), " ")) == Fields(s)
  {
    FieldsAreWords(s);
    FieldsOfJoin(Fields(s), " ");
    FieldsOfWords(Fields(s));
  }

  lemma {:induction false} FieldsOfWords(ws: seq<string>)
    requires forall w :: w in ws ==> IsWord(w)
    ensures FieldsOf(ws) == ws
  {
    if ws != [] {
      FieldsOfWords(ws[..|ws| - 1]);
      OneWord(ws[|ws| - 1]);
    }
  }

  /** strings.Split at newlines. */
  function Lines(s: string): (lines: seq<string>)
    ensures |lines| > 0
    decreases |s|
  {
    if s == "" then [""]
    else if s[0] == '\n' then [""] + Lines(s[1..])
    else
      var rest := Lines(s[1..]);
      [[s[0]] + rest[0]] + rest[1..]
  }

  lemma {:induction false} LinesJoin(s: string)
    ensures Join(Lines(s), "\n") == s
  {
    if s != "" {
      LinesJoin(s[1..]);
      var rest := Lines(s[1..]);
      if s[0] == '\n' {
        assert ([""] + rest)[1..] == rest;
      } else {
        assert ([[s[0]] + rest[0]] + rest[1..])[1..] == rest[1..];
      }
      assert s == [s[0]] + s[1..];
    }
  }

  lemma LinesKeep(s: string)
    ensures FieldsOf(Lines(s)) == Fields(s)
  {
    LinesJoin(s);
    FieldsOfJoin(Lines(s), "\n");
  }
}
