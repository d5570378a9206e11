/** The splitting of a command line into words (Split in internal/kube/shell.go), against a
    grammar of words, and the quoting that it undoes. */
module ShellWords {

  datatype Error = NoClosing | NoEscaped

  datatype Result<T> = Ok(value: T) | Err(error: Error)

  predicate IsSpace(c: char) { c == ' ' || c == '\t' || c == '\r' || c == '\n' }

  // ---- The grammar ----

  /** Something read from the front of a line, and what is left of it. */
  datatype Part = Part(text: string, rest: string)

  function Prefixed(text: string, r: Result<Part>): Result<Part> {
    if r.Ok? then Ok(Part(text + r.value.text, r.value.rest)) else r
  }

  /** Up to the closing single quote, literally. */
  function Single(s: string): (r: Result<Part>)
    ensures r.Ok? ==> |r.value.rest| < |s|
  {
    if s == "" then Err(NoClosing)
    else if s[0] == '\'' then Ok(Part("", s[1..]))
    else Prefixed([s[0]], Single(s[1..]))
  }

  /** Up to the closing double quote. A backslash escapes a double quote or a backslash, and
      stands for itself before anything else. */
  function Double(s: string): (r: Result<Part>)
    ensures r.Ok? ==> |r.value.rest| < |s|
  {
    if s == "" then Err(NoClosing)
    else if s[0] == '"' then Ok(Part("", s[1..]))
    else if s[0] != '\\' then Prefixed([s[0]], Double(s[1..]))
    else if |s| == 1 then Err(NoEscaped)
    else Prefixed(Escaped(s[1]), Double(s[2..]))
  }

  /** What a backslash and a character mean between double quotes. */
  function Escaped(c: char): string {
    if c == '\\' || c == '"' then [c] else ['\\', c]
  }

  /** The rest of a word, up to a space or the end: plain characters, escaped characters and
      quoted parts in any order. */
  function Word(s: string): (r: Result<Part>)
    ensures r.Ok? ==> |r.value.rest| <= |s|
    decreases |s|
  {
    if s == "" || IsSpace(s[0]) then Ok(Part("", s))
    else if s[0] == '\\' then if |s| == 1 then Err(NoEscaped) else Prefixed([s[1]], Word(s[2..]))
    else if s[0] == '\'' || s[0] == '"' then
      var q := if s[0] == '\'' then Single(s[1..]) else Double(s[1..]);
      if q.Err? then q else Prefixed(q.value.text, Word(q.value.rest))
    else Prefixed([s[0]], Word(s[1..]))
  }

  /** The rest of a word after a quoted part of it. */
  function Then(q: Result<Part>): Result<Part> {
    if q.Err? then q else Prefixed(q.value.text, Word(q.value.rest))
  }

  function Consed(w: string, r: Result<seq<string>>): Result<seq<string>> {
    if r.Ok? then Ok([w] + r.value) else r
  }

  /** A line is words between spaces. */
  function Words(s: string): Result<seq<string>>
    decreases |s|
  {
    if s == "" then Ok([])
    else if IsSpace(s[0]) then Words(s[1..])
    else
      WordNeedsInput(s);
      var w := Word(s);
      if w.Err? then Err(w.error) else Consed(w.value.text, Words(w.value.rest))
  }

  lemma WordNeedsInput(s: string)
    requires s != "" && !IsSpace(s[0])
    ensures Word(s).Ok? ==> |Word(s).value.rest| < |s|
  {
  }

  // ---- The machine ----

  /** Between words, inside a word, between quotes, or after a backslash outside or between
      double quotes. */
  datatype State = Between | Inside | InSingle | InDouble | AfterBackslash | AfterBackslashInDouble

  /** What is still to come for a machine in some state with part of a word read. */
  function Resume(st: State, tok: string, s: string): Result<seq<string>> {
    match st
    case Between => Words(s)
    case Inside => Finish(Prefixed(tok, Word(s)))
    case InSingle => Finish(Prefixed(tok, Then(Single(s))))
    case InDouble => Finish(Prefixed(tok, Then(Double(s))))
    case AfterBackslash => if s == "" then Err(NoEscaped) else Finish(Prefixed(tok + [s[0]], Word(s[1..])))
    case AfterBackslashInDouble => if s == "" then Err(NoEscaped) else Finish(Prefixed(tok + Escaped(s[0]), Then(Double(s[1..]))))
  }

  /** The words of a line whose first word has been read. */
  function Finish(w: Result<Part>): Result<seq<string>> {
    if w.Err? then Err(w.error) else Consed(w.value.text, Words(w.value.rest))
  }

  function Appended(out: seq<string>, r: Result<seq<string>>): Result<seq<string>> {
    if r.Ok? then Ok(out + r.value) else r
  }

  lemma PrefixedTwice(a: string, b: string, r: Result<Part>)
    ensures Prefixed(a, Prefixed(b, r)) == Prefixed(a + b, r)
  {
    if r.Ok? {
      assert a + (b + r.value.text) == (a + b) + r.value.text;
    }
  }

  lemma ThenPrefixed(a: string, q: Result<Part>)
    ensures Then(Prefixed(a, q)) == Prefixed(a, Then(q))
  {
    if q.Ok? {
      PrefixedTwice(a, q.value.text, Word(q.value.rest));
    }
  }

  /** Where a character takes the machine that neither ends a word nor stands between two. */
  function Feed(st: State, tok: string, c: char): (State, string) {
    match st
    case InSingle => if c == '\'' then (Inside, tok) else (InSingle, tok + [c])
    case InDouble => if c == '"' then (Inside, tok) else if c == '\\' then (AfterBackslashInDouble, tok) else (InDouble, tok + [c])
    case AfterBackslash => (Inside, tok + [c])
    case AfterBackslashInDouble => (InDouble, tok + Escaped(c))
    case _ =>
      if c == '\'' then (InSingle, tok) else if c == '"' then (InDouble, tok) else if c == '\\' then (AfterBackslash, tok)
      else (Inside, tok + [c])
  }

  lemma FeedInside(tok: string, s: string)
    requires s != "" && !IsSpace(s[0])
    ensures var (to, text) := Feed(Inside, tok, s[0]); Resume(Inside, tok, s) == Resume(to, text, s[1..])
  {
    var c, rest := s[0], s[1..];
    if c == '\\' {
      if rest != "" {
        assert s[2..] == rest[1..] && s[1] == rest[0];
        PrefixedTwice(tok, [rest[0]], Word(rest[1..]));
      }
    } else if c != '\'' && c != '"' {
      PrefixedTwice(tok, [c], Word(rest));
    }
  }

  lemma FeedQuoted(st: State, tok: string, s: string)
    requires st == InSingle || st == InDouble
    requires s != ""
    ensures var (to, text) := Feed(st, tok, s[0]); Resume(st, tok, s) == Resume(to, text, s[1..])
  {
    var c, rest := s[0], s[1..];
    if st == InSingle && c != '\'' {
      ThenPrefixed([c], Single(rest));
      PrefixedTwice(tok, [c], Then(Single(rest)));
    } else if st == InDouble && c == '\\' {
      if rest != "" {
        assert s[2..] == rest[1..] && s[1] == rest[0];
        ThenPrefixed(Escaped(rest[0]), Double(rest[1..]));
        PrefixedTwice(tok, Escaped(rest[0]), Then(Double(rest[1..])));
      }
    } else if st == InDouble && c != '"' {
      ThenPrefixed([c], Double(rest));
      PrefixedTwice(tok, [c], Then(Double(rest)));
    } else {
      PrefixedNothing(Word(rest));
    }
  }

  lemma PrefixedNothing(r: Result<Part>)
    ensures Prefixed("", r) == r
  {
    if r.Ok? {
      assert "" + r.value.text == r.value.text;
    }
  }

  /** One character, as the grammar sees it. */
  lemma FeedKeeps(st: State, tok: string, s: string)
    requires s != "" && (st == Between ==> tok == "") && ((st == Between || st == Inside) ==> !IsSpace(s[0]))
    ensures var (to, text) := Feed(st, tok, s[0]); Resume(st, tok, s) == Resume(to, text, s[1..])
  {
    match st
    case Between =>
      PrefixedNothing(Word(s));
      FeedInside("", s);
    case Inside => FeedInside(tok, s);
    case InSingle => FeedQuoted(st, tok, s);
    case InDouble => FeedQuoted(st, tok, s);
    case AfterBackslash =>
    case AfterBackslashInDouble =>
  }

  lemma AppendedNothing(r: Result<seq<string>>)
    ensures Appended([], r) == r
  {
    if r.Ok? {
      assert [] + r.value == r.value;
    }
  }

  lemma AppendedOne(out: seq<string>, w: string, r: Result<seq<string>>)
    ensures Appended(out, Consed(w, r)) == Appended(out + [w], r)
  {
    if r.Ok? {
      assert out + ([w] + r.value) == (out + [w]) + r.value;
    }
  }

  /** A space inside a word ends it. */
  lemma SpaceEndsWord(out: seq<string>, tok: string, s: string)
    requires s == "" || IsSpace(s[0])
    ensures Appended(out, Resume(Inside, tok, s)) == Appended(out + [tok], Words(if s == "" then "" else s[1..]))
  {
    assert tok + "" == tok;
    AppendedOne(out, tok, Words(s));
  }

  method Split(s: string) returns (r: Result<seq<string>>)
    ensures r == Words(s)
  {
    var out: seq<string> := [];
    var tok, state, quoted := "", Between, false;
    assert s[0..] == s;
    AppendedNothing(Words(s));
    for i := 0 to |s|
      invariant Words(s) == Appended(out, Resume(state, tok, s[i..]))
      invariant state == Between ==> tok == "" && !quoted
      invariant state == Inside ==> tok != "" || quoted
    {
      var c := s[i];
      assert s[i..][0] == c && s[i..][1..] == s[i + 1..];
      if (state == Between || state == Inside) && IsSpace(c) {
        if state == Inside {
          SpaceEndsWord(out, tok, s[i..]);
        }
        out := Emit(out, tok, quoted);
        tok, quoted, state := "", false, Between;
      } else {
        FeedKeeps(state, tok, s[i..]);
        ghost var fed := Feed(state, tok, c);
        match state
        case Between =>
          if c == '\\' {
            state := AfterBackslash;
          } else if c == '\'' {
            state := InSingle;
          } else if c == '"' {
            state := InDouble;
          } else {
            tok, state := tok + [c], Inside;
          }
        case Inside =>
          if c == '\'' {
            state := InSingle;
          } else if c == '"' {
            state := InDouble;
          } else if c == '\\' {
            state := AfterBackslash;
          } else {
            tok := tok + [c];
          }
        case InSingle =>
          quoted := true;
          if c == '\'' {
            state := Inside;
          } else {
            tok := tok + [c];
          }
        case InDouble =>
          quoted := true;
          if c == '"' {
            state := Inside;
          } else if c == '\\' {
            state := AfterBackslashInDouble;
          } else {
            tok := tok + [c];
          }
        case AfterBackslash =>
          tok, state := tok + [c], Inside;
        case AfterBackslashInDouble =>
          assert tok + ['\\'] + [c] == tok + ['\\', c];
          if c != '\\' && c != '"' {
            tok := tok + ['\\'];
          }
          tok, state := tok + [c], InDouble;
        assert (state, tok) == fed;
      }
    }
    assert s[|s|..] == "";
    if state == InSingle || state == InDouble {
      return Err(NoClosing);
    }
    if state == AfterBackslash || state == AfterBackslashInDouble {
      return Err(NoEscaped);
    }
    if state == Inside {
      SpaceEndsWord(out, tok, "");
    }
    out := Emit(out, tok, quoted);
    assert out + [] == out;
    return Ok(out);
  }

  method Emit(out0: seq<string>, tok: string, quoted: bool) returns (out: seq<string>)
    ensures out == if tok != "" || quoted then out0 + [tok] else out0
  {
    out := out0;
    if |tok| > 0 || quoted {
      out := out + [tok];
    }
  }

  // ---- What quoting and splitting do together ----

  /** A word between single quotes, each single quote of it between double quotes instead. */
  function QuoteBody(w: string): string {
    if w == "" then "" else (if w[0] == '\'' then "'\"'\"'" else [w[0]]) + QuoteBody(w[1..])
  }

  function Quote(w: string): string { "'" + QuoteBody(w) + "'" }

  lemma {:induction false} PlainQuote(w: string)
    requires '\'' !in w
    ensures QuoteBody(w) == w && Quote(w) == "'" + w + "'"
  {
    if w != "" {
      assert w[0] in w && forall c :: c in w[1..] ==> c in w;
      PlainQuote(w[1..]);
      assert [w[0]] + w[1..] == w;
    }
  }

  function Line(ws: seq<string>): string {
    if ws == [] then "" else if |ws| == 1 then Quote(ws[0]) else Quote(ws[0]) + " " + Line(ws[1..])
  }

  predicate EndsWord(s: string) { s == "" || IsSpace(s[0]) }

  lemma Front(c: char, t: string)
    ensures ([c] + t)[0] == c && ([c] + t)[1..] == t
  {
  }

  lemma QuoteInQuotes(tail: string)
    ensures Then(Single(['\''] + (['"'] + (['\''] + (['"'] + (['\''] + tail)))))) == Prefixed("'", Then(Single(tail)))
  {
    var e := ['\''] + tail;
    var d := ['"'] + e;
    var c := ['\''] + d;
    var b := ['"'] + c;
    Front('\'', tail);
    Front('"', e);
    Front('\'', d);
    Front('"', c);
    Front('\'', b);
    assert Double(d) == Ok(Part("", e));
    assert "'" + "" == "'";
    assert Double(c) == Ok(Part("'", e));
    assert Word(e) == Then(Single(tail));
    assert Word(b) == Prefixed("'", Word(e));
    PrefixedNothing(Word(b));
  }

  /** The end of a quoted word, before the rest of the line. */
  function Closing(w: string, rest: string): string { QuoteBody(w) + (['\''] + rest) }

  lemma ClosingUnfolds(w: string, rest: string)
    requires w != ""
    ensures Closing(w, rest) ==
            if w[0] == '\'' then ['\''] + (['"'] + (['\''] + (['"'] + (['\''] + Closing(w[1..], rest)))))
            else [w[0]] + Closing(w[1..], rest)
  {
  }

  lemma {:induction false} BodyReads(w: string, rest: string)
    requires EndsWord(rest)
    ensures Then(Single(Closing(w, rest))) == Ok(Part(w, rest))
  {
    if w == "" {
      assert Closing(w, rest) == ['\''] + rest;
      Front('\'', rest);
      PrefixedNothing(Word(rest));
    } else {
      var tail := Closing(w[1..], rest);
      BodyReads(w[1..], rest);
      ClosingUnfolds(w, rest);
      assert [w[0]] + w[1..] == w;
      if w[0] == '\'' {
        QuoteInQuotes(tail);
      } else {
        Front(w[0], tail);
        ThenPrefixed([w[0]], Single(tail));
      }
    }
  }

  lemma QuotedWordReads(w: string, rest: string)
    requires EndsWord(rest)
    ensures Word(Quote(w) + rest) == Ok(Part(w, rest))
  {
    assert Quote(w) + rest == ['\''] + Closing(w, rest);
    Front('\'', Closing(w, rest));
    BodyReads(w, rest);
  }

  lemma QuotedWordFirst(w: string, rest: string)
    requires EndsWord(rest)
    ensures Words(Quote(w) + rest) == Consed(w, Words(rest))
  {
    QuotedWordReads(w, rest);
    assert (Quote(w) + rest)[0] == '\'';
  }

  /** Quoting each of some words, whatever their characters, and splitting the line of them
      gives the words back, empty ones included. */
  lemma {:induction false} RoundTrip(ws: seq<string>)
    ensures Words(Line(ws)) == Ok(ws)
    decreases |ws|
  {
    if |ws| == 1 {
      QuotedWordFirst(ws[0], "");
      assert Quote(ws[0]) + "" == Quote(ws[0]);
      assert [ws[0]] + [] == ws;
    } else if |ws| > 1 {
      var rest := [' '] + Line(ws[1..]);
      RoundTrip(ws[1..]);
      Front(' ', Line(ws[1..]));
      QuotedWordFirst(ws[0], rest);
      assert Line(ws) == Quote(ws[0]) + rest;
      assert [ws[0]] + ws[1..] == ws;
    }
  }

  // ---- Double quotes and backslashes ----

  /** A double quote or a backslash gets a backslash in front. */
  function EscapeBody(w: string): string {
    if w == "" then "" else (if w[0] == '"' || w[0] == '\\' then ['\\', w[0]] else [w[0]]) + EscapeBody(w[1..])
  }

  /** Nothing in it ends double quotes or is changed by them: each backslash has a character
      after it that is neither a double quote nor a backslash. */
  predicate KeptInDouble(w: string) {
    forall i :: 0 <= i < |w| ==> KeptAt(w, i)
  }

  predicate KeptAt(w: string, i: nat)
    requires i < |w|
  {
    w[i] != '"' && (w[i] == '\\' ==> i + 1 < |w| && w[i + 1] != '"' && w[i + 1] != '\\')
  }

  lemma KeptAfter(w: string, n: nat)
    requires KeptInDouble(w) && n <= |w|
    ensures KeptInDouble(w[n..])
  {
    forall i | 0 <= i < |w| - n
      ensures KeptAt(w[n..], i)
    {
      assert KeptAt(w, n + i);
    }
  }

  /** Every character behind a backslash. */
  function Slashed(w: string): string {
    if w == "" then "" else ['\\', w[0]] + Slashed(w[1..])
  }

  lemma DoublePlain(c: char, tail: string)
    requires c != '"' && c != '\\'
    ensures Double([c] + tail) == Prefixed([c], Double(tail))
  {
    Front(c, tail);
  }

  lemma DoublePair(c: char, tail: string)
    ensures Double(['\\'] + ([c] + tail)) == Prefixed(Escaped(c), Double(tail))
  {
    var s := ['\\'] + ([c] + tail);
    assert s[1] == c && s[2..] == tail;
  }

  lemma DoubleEnds(rest: string)
    ensures Double(['"'] + rest) == Ok(Part("", rest))
  {
    Front('"', rest);
  }

  lemma {:induction false} EscapedReads(w: string, rest: string)
    ensures Double(EscapeBody(w) + (['"'] + rest)) == Ok(Part(w, rest))
  {
    hide Double, EscapeBody;
    EscapeUnfolds(w, ['"'] + rest);
    if w == "" {
      DoubleEnds(rest);
    } else {
      var tail := EscapeBody(w[1..]) + (['"'] + rest);
      EscapedReads(w[1..], rest);
      assert [w[0]] + w[1..] == w;
      if w[0] == '"' || w[0] == '\\' {
        DoublePair(w[0], tail);
      } else {
        DoublePlain(w[0], tail);
      }
    }
  }

  lemma EscapeUnfolds(w: string, end: string)
    ensures EscapeBody(w) + end ==
            if w == "" then end
            else if w[0] == '"' || w[0] == '\\' then ['\\'] + ([w[0]] + (EscapeBody(w[1..]) + end))
            else [w[0]] + (EscapeBody(w[1..]) + end)
  {
  }

  lemma {:induction false} KeptReads(w: string, rest: string)
    requires KeptInDouble(w)
    ensures Double(w + (['"'] + rest)) == Ok(Part(w, rest))
    decreases |w|
  {
    hide Double;
    if w == "" {
      DoubleEnds(rest);
      assert w + (['"'] + rest) == ['"'] + rest;
    } else if w[0] == '\\' {
      assert KeptAt(w, 0) && Escaped(w[1]) == ['\\', w[1]];
      var tail := w[2..] + (['"'] + rest);
      KeptAfter(w, 2);
      KeptReads(w[2..], rest);
      DoublePair(w[1], tail);
      assert w + (['"'] + rest) == ['\\'] + ([w[1]] + tail) && ['\\', w[1]] + w[2..] == w;
    } else {
      assert KeptAt(w, 0);
      KeptAfter(w, 1);
      KeptReads(w[1..], rest);
      DoublePlain(w[0], w[1..] + (['"'] + rest));
      assert w + (['"'] + rest) == [w[0]] + (w[1..] + (['"'] + rest)) && [w[0]] + w[1..] == w;
    }
  }

  lemma {:induction false} SlashedReads(w: string)
    ensures Word(Slashed(w)) == Ok(Part(w, ""))
  {
    if w != "" {
      SlashedReads(w[1..]);
      assert Slashed(w)[2..] == Slashed(w[1..]) && [w[0]] + w[1..] == w;
    }
  }

  /** Any word comes back from between double quotes with its double quotes and backslashes
      escaped. One in which every backslash stands before another character comes back as it
      is written: there a backslash is itself. Outside quotes it makes any character plain. */
  lemma DoubleQuotesKeep(w: string)
    ensures Words("\"" + EscapeBody(w) + "\"") == Ok([w])
    ensures KeptInDouble(w) ==> Words("\"" + w + "\"") == Ok([w])
    ensures w != "" ==> Words(Slashed(w)) == Ok([w])
  {
    EscapedReads(w, "");
    QuotedAlone(EscapeBody(w), w);
    if KeptInDouble(w) {
      KeptReads(w, "");
      QuotedAlone(w, w);
    }
    SlashedReads(w);
    assert [w] + [] == [w];
  }

  lemma QuotedAlone(body: string, w: string)
    requires Double(body + (['"'] + "")) == Ok(Part(w, ""))
    ensures Words("\"" + body + "\"") == Ok([w])
  {
    var s := "\"" + body + "\"";
    assert s[1..] == body + (['"'] + "");
    assert w + "" == w && [w] + [] == [w];
    assert Word(s) == Ok(Part(w, ""));
  }

  // ---- When it fails ----

  /** The quoting state after a line, by its characters alone. */
  function After(st: State, s: string): State
    decreases |s|
  {
    if s == "" then st
    else After(if (st == Between || st == Inside) && IsSpace(s[0]) then Between else Feed(st, "", s[0]).0, s[1..])
  }

  lemma FeedState(st: State, tok: string, c: char)
    ensures Feed(st, tok, c).0 == Feed(st, "", c).0
  {
  }

  lemma {:induction false} ResumeFails(st: State, tok: string, s: string)
    requires st == Between ==> tok == ""
    ensures var end := After(st, s);
            (Resume(st, tok, s) == Err(NoClosing) <==> end == InSingle || end == InDouble) &&
            (Resume(st, tok, s) == Err(NoEscaped) <==> end == AfterBackslash || end == AfterBackslashInDouble)
    decreases |s|
  {
    if s != "" {
      if (st == Between || st == Inside) && IsSpace(s[0]) {
        ResumeFails(Between, "", s[1..]);
      } else {
        var (to, text) := Feed(st, tok, s[0]);
        FeedKeeps(st, tok, s);
        FeedState(st, tok, s[0]);
        ResumeFails(to, text, s[1..]);
      }
    }
  }

  /** Splitting fails exactly if the line ends inside quotes, or ends in a backslash that
      escapes. */
  lemma SplitFails(s: string)
    ensures Words(s) == Err(NoClosing) <==> After(Between, s) == InSingle || After(Between, s) == InDouble
    ensures Words(s) == Err(NoEscaped) <==> After(Between, s) == AfterBackslash || After(Between, s) == AfterBackslashInDouble
  {
    ResumeFails(Between, "", s);
  }
}
