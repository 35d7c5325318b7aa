/** The few string operations that the load-balancer code uses, as Python defines them, and what a tokenizer needs. */
module Text {
  import opened Commons

  /** p stands in s at position i. */
  predicate At(s: string, i: int, p: string) { 0 <= i <= |s| - |p| && s[i..i + |p|] == p }

  /** `p in s` */
  predicate Contains(s: string, p: string) { exists i | 0 <= i <= |s| :: At(s, i, p) }

  function FindFrom(s: string, p: string, from: nat): (i: nat)
    requires exists k :: from <= k <= |s| && At(s, k, p)
    ensures from <= i <= |s| && At(s, i, p)
    ensures forall j :: from <= j < i ==> !At(s, j, p)
    decreases |s| - from
  {
    if At(s, from, p) then from else FindFrom(s, p, from + 1)
  }

  function Find(s: string, p: string): (i: nat)
    requires Contains(s, p)
    ensures At(s, i, p) && forall j :: 0 <= j < i ==> !At(s, j, p)
  {
    FindFrom(s, p, 0)
  }

  /** s.split(p) */
  function Split(s: string, p: string): (r: seq<string>)
    requires p != ""
    ensures r != []
    decreases |s|
  {
    if Contains(s, p) then
      var i := Find(s, p);
      [s[..i]] + Split(s[i + |p|..], p)
    else [s]
  }

  predicate IsSpace(c: char) { c == ' ' || c == '\t' || c == '\n' || c == '\r' || c == 11 as char || c == 12 as char }

  ghost predicate Blank(s: string) { forall i :: 0 <= i < |s| ==> IsSpace(s[i]) }

  function LStrip(s: string): string {
    if s != "" && IsSpace(s[0]) then LStrip(s[1..]) else s
  }

  function RStrip(s: string): string {
    if s != "" && IsSpace(s[|s| - 1]) then RStrip(s[..|s| - 1]) else s
  }

  function Strip(s: string): string { RStrip(LStrip(s)) }

  /** No space at either end. */
  predicate Trimmed(s: string) { s == "" || (!IsSpace(s[0]) && !IsSpace(s[|s| - 1])) }

  function Spaces(n: int): string
    decreases n
  {
    if n <= 0 then "" else " " + Spaces(n - 1)
  }

  /** p.join(parts) */
  function Join(p: string, parts: seq<string>): string {
    if parts == [] then "" else if |parts| == 1 then parts[0] else parts[0] + p + Join(p, parts[1..])
  }

  function Concat(parts: seq<string>): string {
    if parts == [] then "" else parts[0] + Concat(parts[1..])
  }

  // ---------------------------------------------------------------- stripping

  lemma {:induction false} SpacesBlank(n: int)
    ensures Blank(Spaces(n))
    ensures '#' !in Spaces(n) && '\n' !in Spaces(n)
    decreases n
  {
    if n > 0 { SpacesBlank(n - 1); }
  }

  lemma {:induction false} LStripPadded(a: string, body: string)
    requires Blank(a) && (body == "" || !IsSpace(body[0]))
    ensures LStrip(a + body) == body
    decreases |a|
  {
    if a == "" {
      assert a + body == body;
    } else {
      assert (a + body)[0] == a[0] && (a + body)[1..] == a[1..] + body;
      LStripPadded(a[1..], body);
    }
  }

  lemma {:induction false} RStripPadded(body: string, b: string)
    requires Blank(b) && (body == "" || !IsSpace(body[|body| - 1]))
    ensures RStrip(body + b) == body
    decreases |b|
  {
    if b == "" {
      assert body + b == body;
    } else {
      var s := body + b;
      assert s[|s| - 1] == b[|b| - 1] && s[..|s| - 1] == body + b[..|b| - 1];
      RStripPadded(body, b[..|b| - 1]);
    }
  }

  lemma StripPadded(a: string, body: string, b: string)
    requires Blank(a) && Blank(b) && Trimmed(body)
    ensures Strip(a + body + b) == body
  {
    if body == "" {
      assert a + body + b == (a + b) + "" && Blank(a + b);
      LStripPadded(a + b, "");
    } else {
      assert a + body + b == a + (body + b);
      LStripPadded(a, body + b);
      RStripPadded(body, b);
    }
  }

  lemma StripBlank(s: string)
    requires Blank(s)
    ensures Strip(s) == ""
  {
    LStripPadded(s, "");
    assert s + "" == s;
  }

  /** rstrip leaves a prefix, followed by spaces only. */
  lemma {:induction false} RStripParts(s: string)
    ensures var r := RStrip(s); |r| <= |s| && s[..|r|] == r && Blank(s[|r|..])
    ensures RStrip(s) == "" || !IsSpace(RStrip(s)[|RStrip(s)| - 1])
    decreases |s|
  {
    if s != "" && IsSpace(s[|s| - 1]) {
      var front := s[..|s| - 1];
      RStripParts(front);
      var r := RStrip(front);
      assert s == front + [s[|s| - 1]] && s[..|r|] == front[..|r|];
      assert s[|r|..] == front[|r|..] + [s[|s| - 1]];
    }
  }

  lemma {:induction false} LStripParts(s: string)
    ensures var r := LStrip(s); |r| <= |s| && s[|s| - |r|..] == r && Blank(s[..|s| - |r|])
    decreases |s|
  {
    if s != "" && IsSpace(s[0]) {
      LStripParts(s[1..]);
      var r, tail := LStrip(s), s[1..];
      assert s == [s[0]] + tail;
      assert r == LStrip(tail) && tail[|tail| - |r|..] == r == s[|s| - |r|..];
      assert s[..|s| - |r|] == [s[0]] + tail[..|tail| - |r|];
    }
  }

  /** Trailing spaces do not matter to rstrip. */
  lemma RStripIgnoresTail(s: string, b: string)
    requires Blank(b)
    ensures RStrip(s + b) == RStrip(s)
  {
    RStripParts(s);
    var r := RStrip(s);
    var end := s[|r|..] + b;
    assert s + b == r + end;
    RStripPadded(r, end);
  }

  // ---------------------------------------------------------------- searching and splitting

  ghost predicate OnlyAt(s: string, i: int, p: string) { At(s, i, p) && forall j :: At(s, j, p) ==> j == i }

  lemma AtInfix(a: string, p: string, b: string)
    ensures At(a + p + b, |a|, p)
  {
    assert (a + p + b)[|a|..|a| + |p|] == p;
  }

  lemma AtShift(a: string, s: string, i: int, p: string)
    requires 0 <= i
    ensures At(s, i, p) <==> At(a + s, |a| + i, p)
  {
    if i <= |s| - |p| { assert (a + s)[|a| + i..|a| + i + |p|] == s[i..i + |p|]; }
  }

  lemma AtPrefix(s: string, b: string, i: int, p: string)
    requires i + |p| <= |s|
    ensures At(s, i, p) <==> At(s + b, i, p)
  {
    if 0 <= i { assert (s + b)[i..i + |p|] == s[i..i + |p|]; }
  }

  lemma SplitNone(s: string, p: string)
    requires p != "" && !Contains(s, p)
    ensures Split(s, p) == [s]
  {
  }

  /** Exactly one separator: two pieces. */
  lemma SplitTwo(a: string, p: string, b: string)
    requires p != "" && OnlyAt(a + p + b, |a|, p)
    ensures Split(a + p + b, p) == [a, b]
  {
    var s := a + p + b;
    assert Contains(s, p);
    assert Find(s, p) == |a|;
    assert s[..|a|] == a && s[|a| + |p|..] == b;
    if Contains(b, p) {
      var j :| 0 <= j <= |b| && At(b, j, p);
      AtShift(a + p, b, j, p);
      assert false;
    }
  }

  /** More generally, a separator that stands nowhere earlier, not even overlapping, splits off the first piece. */
  lemma SplitFirst(a: string, p: string, b: string)
    requires p != "" && forall j :: 0 <= j < |a| ==> !At(a + p + b, j, p)
    ensures Split(a + p + b, p) == [a] + Split(b, p)
  {
    var s := a + p + b;
    AtInfix(a, p, b);
    assert Contains(s, p);
    assert Find(s, p) == |a|;
    assert s[..|a|] == a && s[|a| + |p|..] == b;
  }

  /** A separator of one character that does not occur in a. */
  lemma SplitFirstChar(a: string, c: char, b: string)
    requires c !in a
    ensures Split(a + [c] + b, [c]) == [a] + Split(b, [c])
  {
    forall j | 0 <= j < |a| ensures !At(a + [c] + b, j, [c]) {
      assert (a + [c] + b)[j] == a[j] && (a + [c] + b)[j..j + 1] == [a[j]];
    }
    SplitFirst(a, [c], b);
  }

  lemma AtChar(s: string, i: int, p: string, k: int)
    requires At(s, i, p) && 0 <= k < |p|
    ensures s[i + k] == p[k]
  {
    assert s[i..i + |p|][k] == s[i + k];
  }

  /** A separator extended by what follows it: the extended separator splits at the same place. */
  lemma SplitTwoLonger(a: string, p: string, q: string, b: string)
    requires p != "" && OnlyAt(a + p + (q + b), |a|, p)
    ensures Split(a + p + (q + b), p + q) == [a, b]
  {
    var s := a + p + (q + b);
    assert s == a + (p + q) + b;
    AtInfix(a, p + q, b);
    forall j | At(s, j, p + q) ensures j == |a| {
      assert s[j..j + |p|] == s[j..j + |p + q|][..|p|];
      assert At(s, j, p);
    }
    SplitTwo(a, p + q, b);
  }

  /** The same concatenation bracketed two ways. */
  lemma Regroup(pad: string, x: string, gap: string, p: string, tag: string)
    ensures pad + (x + (gap + (p + tag))) == pad + x + gap + p + tag
    ensures pad + x + gap == pad + (x + gap)
    ensures pad + "" + x == pad + x && x + "" == x
  {
    assert pad + "" == pad;
    assert x + (gap + (p + tag)) == x + gap + p + tag;
  }

  lemma NoCharNoMatch(s: string, p: string, k: int)
    requires 0 <= k < |p| && p[k] !in s
    ensures !Contains(s, p)
  {
    if Contains(s, p) {
      var i :| 0 <= i <= |s| && At(s, i, p);
      AtChar(s, i, p, k);
      assert false;
    }
  }

  /** Stripping cannot cut into a text that does not begin or end in a space. */
  lemma ContainsRStripped(line: string, p: string)
    requires Contains(line, p) && p != "" && !IsSpace(p[|p| - 1])
    ensures Contains(RStrip(line), p)
  {
    var i := Find(line, p);
    var r := RStrip(line);
    RStripParts(line);
    AtChar(line, i, p, |p| - 1);
    assert r + line[|r|..] == line;
    assert forall j :: |r| <= j < |line| ==> line[j] == line[|r|..][j - |r|];
    assert i + |p| - 1 < |r|;
    AtPrefix(r, line[|r|..], i, p);
  }

  lemma ContainsLStripped(line: string, p: string)
    requires Contains(line, p) && p != "" && !IsSpace(p[0])
    ensures Contains(LStrip(line), p)
  {
    var i := Find(line, p);
    var l := LStrip(line);
    LStripParts(line);
    AtChar(line, i, p, 0);
    var gap := line[..|line| - |l|];
    assert gap + l == line;
    assert forall j :: 0 <= j < |gap| ==> line[j] == gap[j];
    assert i >= |gap|;
    AtShift(gap, l, i - |gap|, p);
  }

  lemma ContainsStripped(line: string, p: string)
    requires Contains(line, p) && p != "" && !IsSpace(p[0]) && !IsSpace(p[|p| - 1])
    ensures Contains(Strip(line), p)
  {
    ContainsLStripped(line, p);
    ContainsRStripped(LStrip(line), p);
  }

  lemma ContainsAround(a: string, s: string, b: string, p: string)
    requires Contains(s, p)
    ensures Contains(a + s + b, p)
  {
    var i := Find(s, p);
    AtPrefix(s, b, i, p);
    AtShift(a, s + b, i, p);
    assert a + s + b == a + (s + b);
  }

  lemma PartsContain(a: string, b: string, p: string)
    requires Contains(a, p) || Contains(b, p)
    ensures Contains(a + b, p)
  {
    if Contains(a, p) {
      ContainsAround("", a, b, p);
      assert "" + a + b == a + b;
    } else {
      ContainsAround(a, b, "", p);
      assert a + b + "" == a + b;
    }
  }

  /** What is left after stripping stands in the text. */
  lemma StrippedWithin(s: string, p: string)
    requires Contains(Strip(s), p)
    ensures Contains(s, p)
  {
    var l := LStrip(s);
    RStripParts(l);
    var r := RStrip(l);
    assert l == r + l[|r|..];
    PartsContain(r, l[|r|..], p);
    LStripParts(s);
    assert s == s[..|s| - |l|] + l;
    PartsContain(s[..|s| - |l|], l, p);
  }

  // ---------------------------------------------------------------- tokens

  /** What pyparsing skips before a token, which is less than what strip takes away. */
  predicate IsGap(c: char) { c == ' ' || c == '\t' || c == '\n' || c == '\r' }

  function SkipSpace(s: string): string {
    if s != "" && IsGap(s[0]) then SkipSpace(s[1..]) else s
  }

  ghost predicate Gap(s: string) { forall i :: 0 <= i < |s| ==> IsGap(s[i]) }

  lemma {:induction false} SkipSpacePadded(a: string, body: string)
    requires Gap(a) && (body == "" || !IsGap(body[0]))
    ensures SkipSpace(a + body) == body
    decreases |a|
  {
    if a == "" {
      assert a + body == body;
    } else {
      assert (a + body)[0] == a[0] && (a + body)[1..] == a[1..] + body;
      SkipSpacePadded(a[1..], body);
    }
  }

  function Literal(s: string, word: string): Option<string> {
    var t := SkipSpace(s);
    if word <= t then Some(t[|word|..]) else None
  }

  /** The longest run of characters from the alphabet. */
  function RunLength(s: string, alphabet: char -> bool): (n: nat)
    ensures n <= |s|
  {
    if s != "" && alphabet(s[0]) then 1 + RunLength(s[1..], alphabet) else 0
  }

  function Word(s: string, alphabet: char -> bool): Option<(string, string)> {
    var t := SkipSpace(s);
    var n := RunLength(t, alphabet);
    if n > 0 then Some((t[..n], t[n..])) else None
  }

  ghost predicate Over(s: string, alphabet: char -> bool) { forall i :: 0 <= i < |s| ==> alphabet(s[i]) }

  lemma LiteralMatches(pad: string, word: string, rest: string)
    requires Gap(pad) && word != "" && !IsSpace(word[0])
    ensures Literal(pad + (word + rest), word) == Some(rest)
  {
    SkipSpacePadded(pad, word + rest);
    assert (word + rest)[|word|..] == rest;
  }

  lemma {:induction false} RunLengthIs(x: string, rest: string, alphabet: char -> bool)
    requires Over(x, alphabet) && (rest == "" || !alphabet(rest[0]))
    ensures RunLength(x + rest, alphabet) == |x|
    decreases |x|
  {
    if x == "" {
      assert x + rest == rest;
    } else {
      assert (x + rest)[0] == x[0] && (x + rest)[1..] == x[1..] + rest;
      RunLengthIs(x[1..], rest, alphabet);
    }
  }

  lemma WordMatches(pad: string, x: string, rest: string, alphabet: char -> bool)
    requires Gap(pad) && x != "" && !IsSpace(x[0]) && Over(x, alphabet) && (rest == "" || !alphabet(rest[0]))
    ensures Word(pad + (x + rest), alphabet) == Some((x, rest))
  {
    SkipSpacePadded(pad, x + rest);
    RunLengthIs(x, rest, alphabet);
    assert (x + rest)[..|x|] == x && (x + rest)[|x|..] == rest;
  }

  // ---------------------------------------------------------------- lines

  function Lines(s: string): seq<string> { Split(s, "\n") }

  lemma LinesCons(line: string, rest: string)
    requires '\n' !in line
    ensures Lines(line + "\n" + rest) == [line] + Lines(rest)
  {
    SplitFirstChar(line, '\n', rest);
  }

  lemma LinesOne(line: string)
    requires '\n' !in line
    ensures Lines(line) == [line]
  {
    NoCharNoMatch(line, "\n", 0);
    SplitNone(line, "\n");
  }

  ghost predicate OneLiners(lines: seq<string>) { forall k :: 0 <= k < |lines| ==> '\n' !in lines[k] }

  lemma AtNewline(s: string, k: int)
    requires 0 <= k < |s|
    ensures At(s, k, "\n") <==> s[k] == '\n'
  {
    assert s[k..k + 1] == [s[k]];
  }

  lemma {:induction false} LinesAreOneLiners(s: string)
    ensures OneLiners(Lines(s))
    decreases |s|
  {
    if Contains(s, "\n") {
      var i := Find(s, "\n");
      LinesAreOneLiners(s[i + 1..]);
      forall k | 0 <= k < i ensures s[k] != '\n' { AtNewline(s, k); }
    } else {
      forall k | 0 <= k < |s| ensures s[k] != '\n' { AtNewline(s, k); }
    }
  }

  /** Joining lines with newlines and splitting them again gives the lines back. */
  lemma {:induction false} LinesOfJoin(lines: seq<string>)
    requires lines != [] && OneLiners(lines)
    ensures Lines(Join("\n", lines)) == lines
    decreases |lines|
  {
    if |lines| == 1 {
      LinesOne(lines[0]);
      assert lines == [lines[0]];
    } else {
      LinesCons(lines[0], Join("\n", lines[1..]));
      LinesOfJoin(lines[1..]);
      assert lines == [lines[0]] + lines[1..];
    }
  }
}
