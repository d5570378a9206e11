/** Splitting text into lines and printing numbers, as the diff printer needs them. */
module TextLines {
  import opened Options

  /** strings.TrimSuffix(s, "\n"). */
  function TrimNewline(s: string): string {
    if s != "" && s[|s| - 1] == '\n' then s[..|s| - 1] else s
  }

  /** strings.TrimRight(s, "\n"). */
  function TrimNewlines(s: string): (t: string)
    ensures t == "" || t[|t| - 1] != '\n'
  {
    if s != "" && s[|s| - 1] == '\n' then TrimNewlines(s[..|s| - 1]) else s
  }

  /** strings.SplitAfter(s, "\n"): every piece keeps its newline. */
  function SplitAfter(s: string): (out: seq<string>)
    ensures out != []
  {
    if s == "" then [""]
    else
      var rest := SplitAfter(s[1..]);
      if s[0] == '\n' then ["\n"] + rest else [[s[0]] + rest[0]] + rest[1..]
  }

  function SplitKeep(s: string): seq<string> {
    if s == "" then [] else SplitAfter(TrimNewline(s))
  }

  /** The lines of a text, without their newlines. */
  function Lines(s: string): (out: seq<string>)
    ensures |out| == |SplitKeep(s)|
  {
    var kept := SplitKeep(s);
    seq(|kept|, i requires 0 <= i < |kept| => TrimNewline(kept[i]))
  }

  function Unlines(lines: seq<string>): string {
    if lines == [] then "" else lines[0] + "\n" + Unlines(lines[1..])
  }

  ghost predicate NoNewlines(lines: seq<string>) {
    forall i :: 0 <= i < |lines| ==> '\n' !in lines[i]
  }

  ghost predicate Terminated(s: string) {
    s == "" || s[|s| - 1] == '\n'
  }

  function Plain(s: string): (out: seq<string>)
    ensures |out| == |SplitAfter(s)|
  {
    seq(|SplitAfter(s)|, i requires 0 <= i < |SplitAfter(s)| => TrimNewline(SplitAfter(s)[i]))
  }

  lemma PlainStep(c: char, s: string)
    ensures Plain(s) != [] && Plain("") == [""]
    ensures Plain([c] + s) == if c == '\n' then [""] + Plain(s) else [[c] + Plain(s)[0]] + Plain(s)[1..]
  {
    assert ([c] + s)[1..] == s;
    var rest := SplitAfter(s);
    assert TrimNewline(rest[0]) == Plain(s)[0];
    if c != '\n' {
      assert TrimNewline([c] + rest[0]) == [c] + TrimNewline(rest[0]) by {
        assert rest[0] != "" ==> ([c] + rest[0])[|rest[0]|] == rest[0][|rest[0]| - 1];
      }
    }
  }

  lemma {:induction false} SplitAfterPieces(s: string)
    ensures NoNewlines(Plain(s)) && Unlines(Plain(s)) == s + "\n"
  {
    if s == "" {
      PlainStep('x', "");
      assert Unlines([""]) == "\n";
    } else {
      var c, t := s[0], s[1..];
      assert s == [c] + t && s + "\n" == [c] + (t + "\n");
      SplitAfterPieces(t);
      PlainStep(c, t);
      var rest := Plain(t);
      if c == '\n' {
        UnlinesCons("", rest);
      } else {
        UnlinesCons(rest[0], rest[1..]);
        UnlinesCons([c] + rest[0], rest[1..]);
        assert rest == [rest[0]] + rest[1..];
      }
    }
  }

  lemma UnlinesCons(line: string, rest: seq<string>)
    ensures Unlines([line] + rest) == line + "\n" + Unlines(rest)
    ensures line != "" ==> Unlines([line] + rest) == [line[0]] + Unlines([line[1..]] + rest)
  {
    assert ([line] + rest)[1..] == rest;
    if line != "" {
      assert ([line[1..]] + rest)[1..] == rest;
      assert line + "\n" == [line[0]] + (line[1..] + "\n");
    }
  }

  lemma LinesOfTerminated(s: string)
    requires Terminated(s)
    ensures Unlines(Lines(s)) == s && NoNewlines(Lines(s))
  {
    if s != "" {
      var t := s[..|s| - 1];
      assert s == t + "\n";
      SplitAfterPieces(t);
      assert Lines(s) == Plain(t);
    }
  }

  lemma TrimCons(c: char, u: string)
    requires u != "" && Terminated(u)
    ensures TrimNewline([c] + u) == [c] + TrimNewline(u)
  {
    assert ([c] + u)[|u|] == u[|u| - 1];
    assert ([c] + u)[..|u|] == [c] + u[..|u| - 1];
  }

  /** The lines of a terminated text, one character at a time. */
  ghost predicate Reads(u: string, lines: seq<string>) {
    u != "" && Terminated(u) && Plain(TrimNewline(u)) == lines
  }

  lemma ReadsCons(c: char, u: string, lines: seq<string>)
    requires Reads(u, lines)
    ensures lines != []
    ensures Reads([c] + u, if c == '\n' then [""] + lines else [[c] + lines[0]] + lines[1..])
  {
    TrimCons(c, u);
    PlainStep(c, TrimNewline(u));
    assert ([c] + u)[|u|] == u[|u| - 1];
  }

  lemma {:induction false} PlainOfUnlines(lines: seq<string>)
    requires NoNewlines(lines) && lines != []
    ensures Reads(Unlines(lines), lines)
    decreases |lines|, |lines[0]|
  {
    var head, rest := lines[0], lines[1..];
    assert lines == [head] + rest;
    UnlinesCons(head, rest);
    if head == "" {
      if rest == [] {
        PlainStep('x', "");
        assert Unlines(lines) == "\n" && TrimNewline("\n") == "";
      } else {
        PlainOfUnlines(rest);
        assert Unlines(lines) == ['\n'] + Unlines(rest);
        ReadsCons('\n', Unlines(rest), rest);
      }
    } else {
      var shorter := [head[1..]] + rest;
      assert forall c :: c in head[1..] ==> c in head;
      PlainOfUnlines(shorter);
      assert head[0] in head;
      ReadsCons(head[0], Unlines(shorter), shorter);
      assert shorter[1..] == rest && [head[0]] + shorter[0] == head;
    }
  }

  lemma LinesOfUnlines(lines: seq<string>)
    requires NoNewlines(lines)
    ensures Lines(Unlines(lines)) == lines && Terminated(Unlines(lines))
  {
    if lines != [] {
      PlainOfUnlines(lines);
      assert Lines(Unlines(lines)) == Plain(TrimNewline(Unlines(lines)));
    }
  }

  lemma {:induction false} UnlinesAppend(a: seq<string>, b: seq<string>)
    ensures Unlines(a + b) == Unlines(a) + Unlines(b)
  {
    if a == [] {
      assert a + b == b;
    } else {
      UnlinesAppend(a[1..], b);
      assert (a + b)[1..] == a[1..] + b;
    }
  }

  // ---- Decimal numbers ----

  predicate IsDigit(c: char) { '0' <= c <= '9' }

  function Digit(n: nat): char
    requires n < 10
  {
    ('0' as int + n) as char
  }

  /** fmt.Sprint of a non-negative int. */
  function Decimal(n: nat): (s: string)
    ensures s != "" && forall i :: 0 <= i < |s| ==> IsDigit(s[i])
  {
    if n < 10 then [Digit(n)] else Decimal(n / 10) + [Digit(n % 10)]
  }

  /** The value of the longest run of digits at the front, and what follows it. */
  function ReadNat(s: string, value: nat): (nat, string) {
    if s != "" && IsDigit(s[0]) then ReadNat(s[1..], 10 * value + (s[0] as int - '0' as int)) else (value, s)
  }

  function Scale(n: nat): nat {
    if n < 10 then 10 else 10 * Scale(n / 10)
  }

  lemma {:induction false} ReadDecimal(n: nat, rest: string, value: nat)
    ensures ReadNat(Decimal(n) + rest, value) == ReadNat(rest, value * Scale(n) + n)
  {
    if n < 10 {
      assert (Decimal(n) + rest)[1..] == rest;
    } else {
      var tail := [Digit(n % 10)] + rest;
      assert Decimal(n) + rest == Decimal(n / 10) + tail;
      ReadDecimal(n / 10, tail, value);
      assert tail[1..] == rest;
      ScaleStep(n / 10, n % 10, Scale(n / 10), value);
    }
  }

  lemma ScaleStep(q: nat, r: nat, k: nat, value: nat)
    ensures 10 * (value * k + q) + r == value * (10 * k) + (10 * q + r)
  {
  }

  lemma DecimalReads(n: nat, rest: string)
    requires rest == "" || !IsDigit(rest[0])
    ensures ReadNat(Decimal(n) + rest, 0) == (n, rest)
  {
    ReadDecimal(n, rest, 0);
    assert 0 * Scale(n) == 0;
  }
}
