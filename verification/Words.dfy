/** Words of a text, as the `strings` package of Go sees them. */
module Words {
  /** `unicode.IsSpace` */
  predicate IsSpace(c: char) {
    var n := c as int;
    || 9 <= n <= 13 || n == 0x20 || n == 0x85 || n == 0xA0 || n == 0x1680 || 0x2000 <= n <= 0x200A
    || n == 0x2028 || n == 0x2029 || n == 0x202F || n == 0x205F || n == 0x3000
  }

  predicate IsWord(w: string) {
    w != "" && forall i :: 0 <= i < |w| ==> !IsSpace(w[i])
  }

  function WordLength(s: string): (n: nat)
    ensures n <= |s| && (n < |s| ==> IsSpace(s[n]))
    ensures forall i :: 0 <= i < n ==> !IsSpace(s[i])
  {
    if s == "" || IsSpace(s[0]) then 0 else 1 + WordLength(s[1..])
  }

  /** `strings.Fields` */
  function Fields(s: string): seq<string>
    decreases |s|
  {
    if s == "" then []
    else if IsSpace(s[0]) then Fields(s[1..])
    else [s[..WordLength(s)]] + Fields(s[WordLength(s)..])
  }

  function TrimLeft(s: string): string {
    if s != "" && IsSpace(s[0]) then TrimLeft(s[1..]) else s
  }

  function TrimRight(s: string): string {
    if s != "" && IsSpace(s[|s| - 1]) then TrimRight(s[..|s| - 1]) else s
  }

  /** `strings.TrimSpace` */
  function TrimSpace(s: string): string {
    TrimRight(TrimLeft(s))
  }

  /** `strings.Join(words, " ")` */
  function JoinWords(words: seq<string>): string {
    if words == [] then ""
    else if |words| == 1 then words[0]
    else words[0] + " " + JoinWords(words[1..])
  }

  ghost predicate AllWords(words: seq<string>) {
    forall i :: 0 <= i < |words| ==> IsWord(words[i])
  }

  lemma {:induction false} FieldsAreWords(s: string)
    ensures AllWords(Fields(s))
    decreases |s|
  {
    hide IsSpace;
    if s == "" {
    } else {
      if IsSpace(s[0]) {
        FieldsAreWords(s[1..]);
      } else {
        FieldsAreWords(s[WordLength(s)..]);
      }
    }
  }

  lemma {:induction false} WordLengthOf(w: string, rest: string)
    requires forall i :: 0 <= i < |w| ==> !IsSpace(w[i])
    requires rest == "" || IsSpace(rest[0])
    ensures WordLength(w + rest) == |w|
  {
    hide IsSpace;
    if w == "" {
    } else {
      WordLengthOf(w[1..], rest);
      assert (w + rest)[1..] == w[1..] + rest;
    }
  }

  /** A word, then more after a space. */
  lemma FieldsStep(w: string, rest: string)
    requires IsWord(w) && (rest == "" || IsSpace(rest[0]))
    ensures Fields(w + rest) == [w] + Fields(rest)
  {
    hide IsSpace;
    WordLengthOf(w, rest);
    assert (w + rest)[..|w|] == w && (w + rest)[|w|..] == rest;
  }

  /** Splitting joined words gives the words back. */
  lemma {:induction false} FieldsOfJoin(words: seq<string>)
    requires AllWords(words)
    ensures Fields(JoinWords(words)) == words
  {
    if words == [] {
    } else {
      FieldsOfJoin(words[1..]);
      assert words == [words[0]] + words[1..];
      if |words| == 1 {
        FieldsStep(words[0], "");
        assert words[0] + "" == words[0];
      } else {
        var rest := " " + JoinWords(words[1..]);
        FieldsStep(words[0], rest);
        assert rest[1..] == JoinWords(words[1..]);
        assert words[0] + rest == JoinWords(words);
      }
    }
  }

  lemma FieldsOfWord(w: string)
    requires IsWord(w)
    ensures Fields(w) == [w]
  {
    FieldsStep(w, "");
    assert w + "" == w;
  }

  lemma LeadingWord(s: string)
    requires s != "" && !IsSpace(s[0])
    ensures var n := WordLength(s); 0 < n && IsWord(s[..n]) && (s[n..] == "" || IsSpace(s[n..][0]))
  {
    hide IsSpace;
  }

  lemma Adjoin(a: seq<string>, b: seq<string>, c: seq<string>)
    ensures a + (b + c) == a + b + c
  {
  }

  /** Any space divides the words before it from those behind it. */
  lemma {:induction false} FieldsOfTwo(a: string, c: char, b: string)
    requires IsSpace(c)
    ensures Fields(a + [c] + b) == Fields(a) + Fields(b)
    decreases |a|
  {
    hide IsSpace;
    var s := a + [c] + b;
    if a == "" {
      assert s == [c] + b && s[1..] == b;
    } else if IsSpace(a[0]) {
      FieldsOfTwo(a[1..], c, b);
      assert s[1..] == a[1..] + [c] + b;
    } else {
      LeadingWord(a);
      var n := WordLength(a);
      var w, rest := a[..n], a[n..];
      FieldsOfTwo(rest, c, b);
      hide Fields, WordLength, IsWord;
      assert s == w + (rest + [c] + b);
      FieldsStep(w, rest + [c] + b);
      FieldsStep(w, rest);
      assert a == w + rest;
      Adjoin([w], Fields(rest), Fields(b));
    }
  }

  ghost predicate AllSpace(s: string) {
    forall i :: 0 <= i < |s| ==> IsSpace(s[i])
  }

  lemma {:induction false} TrimLeftIs(s: string)
    ensures var t := TrimLeft(s);
      && |t| <= |s| && s == s[..|s| - |t|] + t && AllSpace(s[..|s| - |t|])
      && (t != "" ==> !IsSpace(t[0]))
  {
    hide IsSpace;
    if s != "" && IsSpace(s[0]) {
      TrimLeftIs(s[1..]);
      var k := |s| - |TrimLeft(s)|;
      assert s[..k] == [s[0]] + s[1..][..k - 1];
    }
  }

  lemma {:induction false} TrimRightIs(s: string)
    ensures var t := TrimRight(s);
      && t <= s && AllSpace(s[|t|..])
      && (t != "" ==> !IsSpace(t[|t| - 1]) && t[0] == s[0])
  {
    hide IsSpace;
    if s != "" && IsSpace(s[|s| - 1]) {
      var n := |s| - 1;
      TrimRightIs(s[..n]);
      var t := TrimRight(s);
      assert s[|t|..] == s[..n][|t|..] + [s[n]];
    }
  }

  /** Trimming takes the space at both ends, all of it, and nothing else. */
  lemma TrimExactly(s: string) returns (before: string, after: string)
    ensures s == before + TrimSpace(s) + after && AllSpace(before) && AllSpace(after)
    ensures TrimSpace(s) != "" ==> !IsSpace(TrimSpace(s)[0]) && !IsSpace(TrimSpace(s)[|TrimSpace(s)| - 1])
  {
    hide IsSpace;
    TrimLeftIs(s);
    var left := TrimLeft(s);
    TrimRightIs(left);
    before, after := s[..|s| - |left|], left[|TrimSpace(s)|..];
  }

  lemma {:induction false} TrailingSpace(s: string, c: char)
    requires IsSpace(c)
    ensures Fields(s + [c]) == Fields(s)
    decreases |s|
  {
    hide IsSpace;
    if s == "" {
      assert ([c])[1..] == "" && s + [c] == [c];
    } else if IsSpace(s[0]) {
      TrailingSpace(s[1..], c);
      assert (s + [c])[1..] == s[1..] + [c];
    } else {
      var n := WordLength(s);
      var rest := s[n..];
      TrailingSpace(rest, c);
      FieldsStep(s[..n], rest + [c]);
      assert s[..n] + (rest + [c]) == s + [c];
    }
  }

  lemma {:induction false} FieldsOfTrimRight(s: string)
    ensures Fields(TrimRight(s)) == Fields(s)
  {
    hide IsSpace, Fields;
    if s != "" && IsSpace(s[|s| - 1]) {
      FieldsOfTrimRight(s[..|s| - 1]);
      TrailingSpace(s[..|s| - 1], s[|s| - 1]);
      assert s == s[..|s| - 1] + [s[|s| - 1]];
    }
  }

  lemma {:induction false} FieldsOfTrimLeft(s: string)
    ensures Fields(TrimLeft(s)) == Fields(s)
  {
    hide IsSpace;
    if s != "" && IsSpace(s[0]) {
      FieldsOfTrimLeft(s[1..]);
    }
  }

  /** Trimming first makes no difference to the words. */
  lemma FieldsOfTrim(s: string)
    ensures Fields(TrimSpace(s)) == Fields(s)
  {
    FieldsOfTrimLeft(s);
    FieldsOfTrimRight(TrimLeft(s));
  }
}
