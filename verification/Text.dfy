/** Text helpers shared by the models: searching, splitting and joining.

    A Go string is a sequence of bytes and a JavaScript string one of code
    units; both are modelled as a sequence of characters.  Every tag, separator
    and escape the program looks for is ASCII, so nothing below depends on the
    difference.  */
module Text {
  datatype Option<+T> = None | Some(value: T)

  predicate OccursAt(s: string, tag: string, i: int) {
    0 <= i && i + |tag| <= |s| && s[i..i + |tag|] == tag
  }

  /** The first position at or after `i` where `tag` occurs, or -1. */
  function FindFrom(s: string, tag: string, i: nat): (r: int)
    ensures r == -1 || (i <= r && OccursAt(s, tag, r))
    ensures forall j :: i <= j && (r == -1 || j < r) ==> !OccursAt(s, tag, j)
    decreases |s| - i
  {
    if i + |tag| > |s| then -1
    else if s[i..i + |tag|] == tag then i
    else FindFrom(s, tag, i + 1)
  }

  /** `strings.Index` and `String.indexOf`. */
  function IndexOf(s: string, tag: string): (r: int)
    ensures r == -1 || (0 <= r && r + |tag| <= |s|)
  {
    FindFrom(s, tag, 0)
  }

  /** The result is the first match, and -1 says there is none. */
  lemma IndexOfFirst(s: string, tag: string)
    ensures IndexOf(s, tag) == -1 || OccursAt(s, tag, IndexOf(s, tag))
    ensures forall j :: 0 <= j && (IndexOf(s, tag) == -1 || j < IndexOf(s, tag)) ==> !OccursAt(s, tag, j)
  {
  }

  lemma IndexOfIs(s: string, tag: string, i: nat)
    requires OccursAt(s, tag, i)
    requires forall j :: 0 <= j < i ==> !OccursAt(s, tag, j)
    ensures IndexOf(s, tag) == i
  {
  }

  lemma OccursInExtension(s: string, d: string, tag: string, i: int)
    requires i + |tag| <= |s|
    ensures OccursAt(s + d, tag, i) <==> OccursAt(s, tag, i)
  {
    if 0 <= i {
      assert (s + d)[i..i + |tag|] == s[i..i + |tag|];
    }
  }

  /** Text that arrives later does not move a match that is already there. */
  lemma IndexOfExtend(s: string, d: string, tag: string)
    requires IndexOf(s, tag) >= 0
    ensures IndexOf(s + d, tag) == IndexOf(s, tag)
  {
    var k := IndexOf(s, tag);
    forall j | 0 <= j <= k ensures OccursAt(s + d, tag, j) <==> OccursAt(s, tag, j) {
      OccursInExtension(s, d, tag, j);
    }
  }

  lemma Regroup<T>(a: seq<T>, b: seq<T>, c: seq<T>)
    ensures a + b + c == a + (b + c)
  {
  }

  /** Two adjacent slices are one. */
  lemma Adjacent<T>(s: seq<T>, i: nat, j: nat, k: nat)
    requires i <= j <= k <= |s|
    ensures s[i..j] + s[j..k] == s[i..k]
  {
  }

  /** A slice of a slice. */
  lemma Inside<T>(s: seq<T>, i: nat, k: nat, from: nat, to: nat)
    requires i <= k <= |s| && from <= to <= k - i
    ensures s[i..k][from..to] == s[i + from..i + to]
  {
    var m := s[i..k];
    assert m[from..to] == s[i + from..i + to] by {
      forall j | 0 <= j < to - from ensures m[from..to][j] == s[i + from..i + to][j] {
        assert m[from + j] == s[i + (from + j)];
      }
    }
  }

  // ------------------------------------------------------------------ lines

  /** Every line end becomes a single line feed: `\r\n` first, then `\r`. */
  function NormalizeLineEnds(text: string): string {
    if text == "" then ""
    else if text[0] == '\r' then
      "\n" + NormalizeLineEnds(if |text| > 1 && text[1] == '\n' then text[2..] else text[1..])
    else [text[0]] + NormalizeLineEnds(text[1..])
  }

  /** `text.split('\n')` */
  function Lines(text: string): (lines: seq<string>)
    ensures lines != []
  {
    if text == "" then [""]
    else if text[0] == '\n' then [""] + Lines(text[1..])
    else
      var rest := Lines(text[1..]);
      [[text[0]] + rest[0]] + rest[1..]
  }

  /** `lines.join('\n')` */
  function Join(lines: seq<string>): string {
    if lines == [] then ""
    else if |lines| == 1 then lines[0]
    else lines[0] + "\n" + Join(lines[1..])
  }

  predicate OneLine(s: string) {
    forall i :: 0 <= i < |s| ==> s[i] != '\n' && s[i] != '\r'
  }

  predicate NoReturn(s: string) {
    forall i :: 0 <= i < |s| ==> s[i] != '\r'
  }

  lemma {:induction false} NormalizePlain(s: string)
    requires NoReturn(s)
    ensures NormalizeLineEnds(s) == s
  {
    if s == "" {
    } else {
      NormalizePlain(s[1..]);
    }
  }

  predicate NoLineFeed(s: string) {
    forall i :: 0 <= i < |s| ==> s[i] != '\n'
  }

  lemma {:induction false} LinesFirst(a: string, b: string)
    requires NoLineFeed(a)
    ensures Lines(a) == [a]
    ensures Lines(a + "\n" + b) == [a] + Lines(b)
  {
    if a == "" {
      assert a + "\n" + b == "\n" + b;
      assert ("\n" + b)[1..] == b;
    } else {
      LinesFirst(a[1..], b);
      assert [a[0]] + a[1..] == a;
      assert (a + "\n" + b)[1..] == a[1..] + "\n" + b;
    }
  }

  /** Splitting finds the joined lines again, if none of them is itself several. */
  lemma {:induction false} LinesOfJoin(lines: seq<string>)
    requires lines != [] && forall i :: 0 <= i < |lines| ==> NoLineFeed(lines[i])
    ensures Lines(Join(lines)) == lines
  {
    LinesFirst(lines[0], Join(lines[1..]));
    if |lines| <= 1 {
    } else {
      LinesOfJoin(lines[1..]);
      hide Lines;
      assert lines == [lines[0]] + lines[1..];
    }
  }

  lemma JoinStep(line: string, rest: seq<string>)
    ensures Join([line] + rest) == if rest == [] then line else line + "\n" + Join(rest)
  {
    assert ([line] + rest)[1..] == rest;
  }

  lemma JoinOfFirst(c: char, rest: seq<string>)
    requires rest != []
    ensures Join([[c] + rest[0]] + rest[1..]) == [c] + Join(rest)
  {
    assert rest == [rest[0]] + rest[1..];
    JoinStep(rest[0], rest[1..]);
    JoinStep([c] + rest[0], rest[1..]);
    hide Join;
    Regroup([c], rest[0], "\n");
    Regroup([c], rest[0] + "\n", Join(rest[1..]));
  }

  lemma LinesStep(c: char, s: string)
    ensures Lines([c] + s) == (
      if c == '\n' then [""] + Lines(s) else [[c] + Lines(s)[0]] + Lines(s)[1..])
  {
    assert ([c] + s)[1..] == s;
  }

  /** Joining the lines of a text gives the text. */
  lemma {:induction false} JoinOfLines(text: string)
    ensures Join(Lines(text)) == text
    ensures forall i :: 0 <= i < |Lines(text)| ==> NoLineFeed(Lines(text)[i])
  {
    if text == "" {
    } else {
      var rest := Lines(text[1..]);
      JoinOfLines(text[1..]);
      LinesStep(text[0], text[1..]);
      assert text == [text[0]] + text[1..];
      hide Lines;
      if text[0] == '\n' {
        assert ([""] + rest)[1..] == rest;
      } else {
        JoinOfFirst(text[0], rest);
      }
    }
  }

  lemma TailOfSum(x: string, rest: seq<string>, more: seq<string>)
    requires rest != []
    ensures (rest + more)[0] == rest[0]
    ensures [x] + (rest + more)[1..] == [x] + rest[1..] + more
  {
  }

  lemma LinesOfTwoStep(c: char, t: string, b: string)
    requires Lines(t + "\n" + b) == Lines(t) + Lines(b)
    ensures Lines([c] + (t + "\n" + b)) == Lines([c] + t) + Lines(b)
  {
    hide Lines;
    LinesStep(c, t + "\n" + b);
    LinesStep(c, t);
    if c == '\n' {
      assert [""] + (Lines(t) + Lines(b)) == [""] + Lines(t) + Lines(b);
    } else {
      TailOfSum([c] + Lines(t)[0], Lines(t), Lines(b));
    }
  }

  /** Line breaks between two texts keep the lines of each. */
  lemma {:induction false} LinesOfTwo(a: string, b: string)
    ensures Lines(a + "\n" + b) == Lines(a) + Lines(b)
    decreases |a|
  {
    if a == "" {
      assert a + "\n" + b == ['\n'] + b;
      LinesStep('\n', b);
    } else {
      hide Lines;
      LinesOfTwo(a[1..], b);
      LinesOfTwoStep(a[0], a[1..], b);
      assert a == [a[0]] + a[1..];
      assert a + "\n" + b == [a[0]] + (a[1..] + "\n" + b);
    }
  }
}
