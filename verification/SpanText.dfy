/** Wikitext with span tags: the newline placeholder, what erasing and restoring mean, and
    the tag discipline. */
module SpanText {
  import opened Wrappers

  /** The text put in place of every line break while parsing. */
  const BREAK: string := "WIKICOLORLB"
  const BREAK_LEN: nat := 11

  /** One character of text, or one tag. */
  datatype Elem = Ch(c: char) | Open(className: string, id: nat) | Close

  // ----- placeholders -----

  /** `lit` stands at position `s`. */
  predicate At(text: string, lit: string, s: int) {
    0 <= s && s + |lit| <= |text| && text[s..s + |lit|] == lit
  }

  predicate AtBreak(text: string, s: int) {
    At(text, BREAK, s)
  }

  /** Strictly inside some placeholder. */
  ghost predicate Inside(text: string, p: int) {
    exists s :: AtBreak(text, s) && s < p < s + BREAK_LEN
  }

  ghost predicate HasBreak(text: string) {
    exists s :: AtBreak(text, s)
  }

  lemma BreakChars(text: string, s: int, p: int)
    requires AtBreak(text, s) && s <= p < s + BREAK_LEN
    ensures text[p] == BREAK[p - s] && (text[p] == 'W' <==> p == s)
  {
    assert text[s..s + BREAK_LEN][p - s] == BREAK[p - s];
  }

  /** Placeholders do not overlap: their first letter occurs nowhere else in them. */
  lemma BreaksApart(text: string, s: int, t: int)
    requires AtBreak(text, s) && AtBreak(text, t) && s < t
    ensures s + BREAK_LEN <= t
  {
    BreakChars(text, t, t);
    if t < s + BREAK_LEN { BreakChars(text, s, t); }
  }

  lemma EndsClear(text: string)
    ensures !Inside(text, 0) && !Inside(text, |text|)
  {
  }

  function RunEnd(text: string, s: nat): (e: nat)
    requires s <= |text|
    ensures s <= e <= |text|
    decreases |text| - s
  {
    if AtBreak(text, s) then RunEnd(text, s + BREAK_LEN) else s
  }

  /** A run of placeholders ends outside any placeholder. */
  lemma {:induction false} RunEndClear(text: string, s: nat)
    requires AtBreak(text, s)
    ensures s + BREAK_LEN <= RunEnd(text, s) && !Inside(text, RunEnd(text, s))
    decreases |text| - s
  {
    if AtBreak(text, s + BREAK_LEN) {
      RunEndClear(text, s + BREAK_LEN);
    } else {
      var p := s + BREAK_LEN;
      if Inside(text, p) {
        var t :| AtBreak(text, t) && t < p < t + BREAK_LEN;
        if s < t { BreaksApart(text, s, t); } else if t < s { BreaksApart(text, t, s); }
      }
    }
  }

  // ----- literal search, the simplest matcher -----

  /** The first occurrence of `lit` at or after `pos`. */
  function FindLiteral(text: string, lit: string, pos: nat): (r: Option<nat>)
    ensures r.Some? ==> pos <= r.value && At(text, lit, r.value)
    ensures r.Some? ==> forall s :: pos <= s < r.value ==> !At(text, lit, s)
    ensures r.None? ==> forall s :: pos <= s ==> !At(text, lit, s)
    decreases |text| - pos
  {
    if pos + |lit| > |text| then None
    else if At(text, lit, pos) then Some(pos)
    else FindLiteral(text, lit, pos + 1)
  }

  // ----- erasing tags -----

  function Erase(out: seq<Elem>): string {
    if out == [] then ""
    else (if out[0].Ch? then [out[0].c] else "") + Erase(out[1..])
  }

  function Chars(s: string): (out: seq<Elem>)
    ensures |out| == |s| && forall i :: 0 <= i < |s| ==> out[i] == Ch(s[i])
  {
    seq(|s|, i requires 0 <= i < |s| => Ch(s[i]))
  }

  lemma {:induction false} EraseAppend(x: seq<Elem>, y: seq<Elem>)
    ensures Erase(x + y) == Erase(x) + Erase(y)
  {
    if x == [] {
      assert x + y == y;
    } else {
      assert (x + y)[0] == x[0] && (x + y)[1..] == x[1..] + y;
      EraseAppend(x[1..], y);
    }
  }

  lemma {:induction false} EraseChars(s: string)
    ensures Erase(Chars(s)) == s
  {
    if s != "" {
      assert Chars(s)[1..] == Chars(s[1..]);
      EraseChars(s[1..]);
      assert s == [s[0]] + s[1..];
    }
  }

  lemma EraseTag(t: Elem)
    requires !t.Ch?
    ensures Erase([t]) == ""
  {
    assert [t][1..] == [];
  }

  // ----- the tag discipline -----

  /** Whether a span is open at the end; None once a span was opened inside another one or
      closed outside any. */
  function SpanState(out: seq<Elem>): Option<bool> {
    if out == [] then Some(false)
    else
      match (SpanState(out[..|out| - 1]), out[|out| - 1])
      case (None, _) => None
      case (Some(open), Ch(_)) => Some(open)
      case (Some(open), Open(_, _)) => if open then None else Some(true)
      case (Some(open), Close) => if open then Some(false) else None
  }

  /** The ids of the opened spans, in order. */
  function SpanIds(out: seq<Elem>): seq<nat> {
    if out == [] then []
    else SpanIds(out[..|out| - 1]) + if out[|out| - 1].Open? then [out[|out| - 1].id] else []
  }

  lemma StateOfOne(out: seq<Elem>, e: Elem)
    ensures SpanState(out + [e]) == match (SpanState(out), e)
      case (None, _) => None
      case (Some(open), Ch(_)) => Some(open)
      case (Some(open), Open(_, _)) => (if open then None else Some(true))
      case (Some(open), Close) => (if open then Some(false) else None)
    ensures SpanIds(out + [e]) == SpanIds(out) + if e.Open? then [e.id] else []
  {
    assert (out + [e])[..|out|] == out;
  }

  lemma {:induction false} TextKeepsState(out: seq<Elem>, s: string)
    ensures SpanState(out + Chars(s)) == SpanState(out) && SpanIds(out + Chars(s)) == SpanIds(out)
    decreases |s|
  {
    if s == "" {
      assert out + Chars(s) == out;
    } else {
      var n := |s| - 1;
      TextKeepsState(out, s[..n]);
      assert out + Chars(s) == (out + Chars(s[..n])) + [Ch(s[n])];
      StateOfOne(out + Chars(s[..n]), Ch(s[n]));
    }
  }

  /** No tag stands strictly inside a placeholder of `text`, tags being placed by how much
      text comes before them. */
  ghost predicate TagsClear(out: seq<Elem>, text: string) {
    forall i :: 0 <= i < |out| && !out[i].Ch? ==> !Inside(text, |Erase(out[..i])|)
  }

  lemma TagsClearTag(out: seq<Elem>, text: string, t: Elem)
    requires TagsClear(out, text) && !Inside(text, |Erase(out)|)
    ensures TagsClear(out + [t], text)
  {
    var now := out + [t];
    forall i | 0 <= i < |now| && !now[i].Ch? ensures !Inside(text, |Erase(now[..i])|) {
      if i < |out| { assert now[..i] == out[..i]; } else { assert now[..i] == out; }
    }
  }

  lemma TagsClearText(out: seq<Elem>, text: string, s: string)
    requires TagsClear(out, text)
    ensures TagsClear(out + Chars(s), text)
  {
    var now := out + Chars(s);
    forall i | 0 <= i < |now| && !now[i].Ch? ensures !Inside(text, |Erase(now[..i])|) {
      assert i < |out| && now[..i] == out[..i];
    }
  }

  // ----- restoring line breaks -----

  /** Replaces every placeholder by a line feed, from left to right. */
  function RestoreText(s: string): string
    decreases |s|
  {
    if s == "" then ""
    else if AtBreak(s, 0) then "\n" + RestoreText(s[BREAK_LEN..])
    else [s[0]] + RestoreText(s[1..])
  }

  /** The same on tagged text: a tag interrupts a placeholder. */
  function Restore(out: seq<Elem>): seq<Elem>
    decreases |out|
  {
    if out == [] then []
    else if |out| >= BREAK_LEN && out[..BREAK_LEN] == Chars(BREAK) then [Ch('\n')] + Restore(out[BREAK_LEN..])
    else [out[0]] + Restore(out[1..])
  }

  lemma EraseSplit(out: seq<Elem>, n: nat)
    requires n <= |out|
    ensures Erase(out) == Erase(out[..n]) + Erase(out[n..])
  {
    assert out == out[..n] + out[n..];
    EraseAppend(out[..n], out[n..]);
  }

  lemma EraseCons(e: Elem, out: seq<Elem>)
    ensures Erase([e] + out) == (if e.Ch? then [e.c] else "") + Erase(out)
  {
    assert ([e] + out)[0] == e && ([e] + out)[1..] == out;
  }

  /** Up to the first tag that has text before it, elements are the characters of the text. */
  lemma {:induction false} LeadingChars(out: seq<Elem>, t: string)
    requires StartsWith(Erase(out), t)
    requires forall i :: 0 <= i < |out| && !out[i].Ch? ==> |Erase(out[..i])| >= |t|
    ensures |t| <= |out| && out[..|t|] == Chars(t)
    decreases |t|
  {
    if t == "" {
    } else {
      assert out != [];
      assert out[..0] == [];
      assert out[0].Ch?;
      var rest := out[1..];
      assert Erase(out)[0] == out[0].c && Erase(out)[1..] == Erase(rest);
      forall i | 0 <= i < |rest| && !rest[i].Ch? ensures |Erase(rest[..i])| >= |t[1..]| {
        assert !out[i + 1].Ch? && out[..i + 1] == [out[0]] + rest[..i];
        EraseCons(out[0], rest[..i]);
      }
      LeadingChars(rest, t[1..]);
      assert out[..|t|] == [out[0]] + rest[..|t| - 1];
      assert Chars(t) == [Ch(t[0])] + Chars(t[1..]);
    }
  }

  predicate StartsWith(s: string, t: string) {
    t == "" || (s != "" && s[0] == t[0] && StartsWith(s[1..], t[1..]))
  }

  lemma {:induction false} StartsWithAt(s: string, t: string)
    ensures StartsWith(s, t) <==> At(s, t, 0)
  {
    if t != "" && s != "" {
      StartsWithAt(s[1..], t[1..]);
      if |t| <= |s| {
        assert s[0..|t|] == [s[0]] + s[1..][0..|t| - 1];
        assert t == [t[0]] + t[1..];
      }
    }
  }

  /** Placeholders of a suffix are placeholders of the whole text. */
  lemma InsideShift(s: string, t: string, p: int)
    requires Inside(t, p)
    ensures Inside(s + t, |s| + p)
  {
    var x :| AtBreak(t, x) && x < p < x + BREAK_LEN;
    assert (s + t)[|s| + x..|s| + x + BREAK_LEN] == t[x..x + BREAK_LEN];
    assert AtBreak(s + t, |s| + x);
  }

  lemma TagsClearDrop(out: seq<Elem>, n: nat)
    requires TagsClear(out, Erase(out)) && n <= |out|
    ensures TagsClear(out[n..], Erase(out[n..]))
  {
    hide Inside;
    var rest := out[n..];
    EraseSplit(out, n);
    forall i | 0 <= i < |rest| && !rest[i].Ch? ensures !Inside(Erase(rest), |Erase(rest[..i])|) {
      TagShift(out, n, i);
    }
  }

  lemma TagShift(out: seq<Elem>, n: nat, i: nat)
    requires n + i < |out| && !Inside(Erase(out), |Erase(out[..n + i])|)
    ensures !Inside(Erase(out[n..]), |Erase(out[n..][..i])|)
  {
    hide Inside;
    var rest := out[n..];
    EraseSplit(out, n);
    assert out[..n + i] == out[..n] + rest[..i];
    EraseAppend(out[..n], rest[..i]);
    if Inside(Erase(rest), |Erase(rest[..i])|) {
      InsideShift(Erase(out[..n]), Erase(rest), |Erase(rest[..i])|);
    }
  }

  lemma BeyondFirst(text: string, p: int)
    requires AtBreak(text, 0) && p > 0 && !Inside(text, p)
    ensures p >= BREAK_LEN
  {
  }

  lemma SomeText(out: seq<Elem>, i: nat)
    requires 0 < i <= |out| && out[0].Ch?
    ensures |Erase(out[..i])| > 0
  {
  }

  lemma StartsWithBreak(out: seq<Elem>)
    requires TagsClear(out, Erase(out)) && out != [] && out[0].Ch? && AtBreak(Erase(out), 0)
    ensures |out| >= BREAK_LEN && out[..BREAK_LEN] == Chars(BREAK)
  {
    hide Inside, AtBreak, Chars, Erase, StartsWith;
    forall i | 0 <= i < |out| && !out[i].Ch? ensures |Erase(out[..i])| >= BREAK_LEN {
      SomeText(out, i);
      BeyondFirst(Erase(out), |Erase(out[..i])|);
    }
    BreakStarts(Erase(out));
    LeadingChars(out, BREAK);
  }

  lemma BreakStarts(s: string)
    requires AtBreak(s, 0)
    ensures StartsWith(s, BREAK)
  {
    StartsWithAt(s, BREAK);
  }

  lemma RestoreBreak(out: seq<Elem>)
    requires |out| >= BREAK_LEN && out[..BREAK_LEN] == Chars(BREAK)
    ensures Erase(Restore(out)) == "\n" + Erase(Restore(out[BREAK_LEN..]))
    ensures RestoreText(Erase(out)) == "\n" + RestoreText(Erase(out[BREAK_LEN..]))
  {
    EraseCons(Ch('\n'), Restore(out[BREAK_LEN..]));
    EraseSplit(out, BREAK_LEN);
    EraseChars(BREAK);
    var t := Erase(out);
    assert t == BREAK + Erase(out[BREAK_LEN..]);
    assert t[0..BREAK_LEN] == BREAK && t[BREAK_LEN..] == Erase(out[BREAK_LEN..]);
  }

  lemma RestoreChar(out: seq<Elem>)
    requires out != [] && out[0].Ch? && !AtBreak(Erase(out), 0)
    requires !(|out| >= BREAK_LEN && out[..BREAK_LEN] == Chars(BREAK))
    ensures Erase(Restore(out)) == [out[0].c] + Erase(Restore(out[1..]))
    ensures RestoreText(Erase(out)) == [out[0].c] + RestoreText(Erase(out[1..]))
  {
    EraseCons(out[0], Restore(out[1..]));
    assert Erase(out)[0] == out[0].c && Erase(out)[1..] == Erase(out[1..]);
  }

  lemma RestoreTag(out: seq<Elem>)
    requires out != [] && !out[0].Ch?
    ensures Erase(Restore(out)) == Erase(Restore(out[1..])) && Erase(out) == Erase(out[1..])
  {
    if |out| >= BREAK_LEN { assert Chars(BREAK)[0].Ch? && out[..BREAK_LEN][0] == out[0]; }
    EraseCons(out[0], Restore(out[1..]));
    assert "" + Erase(Restore(out[1..])) == Erase(Restore(out[1..]));
  }

  /** Where no tag stands inside a placeholder, restoring and erasing commute. */
  lemma {:induction false} EraseRestore(out: seq<Elem>)
    requires TagsClear(out, Erase(out))
    ensures Erase(Restore(out)) == RestoreText(Erase(out))
    decreases |out|
  {
    hide TagsClear, Restore, RestoreText, Erase, Chars, AtBreak;
    if out == [] {
      NothingToRestore();
    } else if |out| >= BREAK_LEN && out[..BREAK_LEN] == Chars(BREAK) {
      TagsClearDrop(out, BREAK_LEN);
      EraseRestore(out[BREAK_LEN..]);
      RestoreBreak(out);
    } else {
      TagsClearDrop(out, 1);
      EraseRestore(out[1..]);
      if out[0].Ch? {
        if AtBreak(Erase(out), 0) { StartsWithBreak(out); }
        RestoreChar(out);
      } else {
        RestoreTag(out);
      }
    }
  }

  lemma NothingToRestore()
    ensures Erase(Restore([])) == RestoreText(Erase([]))
  {
  }

  // ----- substituting line breaks -----

  /** CRLF, LF and CR all become the placeholder. */
  function Substitute(s: string): string
    decreases |s|
  {
    if s == "" then ""
    else if |s| >= 2 && s[0] == '\r' && s[1] == '\n' then BREAK + Substitute(s[2..])
    else if s[0] == '\n' || s[0] == '\r' then BREAK + Substitute(s[1..])
    else [s[0]] + Substitute(s[1..])
  }

  /** CRLF, LF and CR all become LF. */
  function Normalise(s: string): string
    decreases |s|
  {
    if s == "" then ""
    else if |s| >= 2 && s[0] == '\r' && s[1] == '\n' then "\n" + Normalise(s[2..])
    else if s[0] == '\n' || s[0] == '\r' then "\n" + Normalise(s[1..])
    else [s[0]] + Normalise(s[1..])
  }

  /** A line with the break that ends it. */
  datatype Line = Line(text: string, end: string)

  ghost predicate OneLine(s: string) {
    forall c :: c in s ==> c != '\n' && c != '\r'
  }

  /** No CR is followed at once by an LF that is not of the same break. */
  ghost predicate LinesOk(lines: seq<Line>) {
    && (forall i :: 0 <= i < |lines| ==> OneLine(lines[i].text) && lines[i].end in ["\r\n", "\n", "\r"])
    && forall i :: 0 < i < |lines| ==> lines[i].text == "" && lines[i].end == "\n" ==> lines[i - 1].end != "\r"
  }

  function Laid(lines: seq<Line>, rest: string): string {
    if lines == [] then rest else lines[0].text + (lines[0].end + Laid(lines[1..], rest))
  }

  /** The lines, each ended by the same break. */
  function Ended(lines: seq<Line>, end: string, rest: string): string {
    if lines == [] then rest else lines[0].text + (end + Ended(lines[1..], end, rest))
  }

  lemma CharFirst(c: char, rest: string)
    requires c != '\n' && c != '\r'
    ensures Normalise([c] + rest) == [c] + Normalise(rest) && Substitute([c] + rest) == [c] + Substitute(rest)
  {
    assert ([c] + rest)[1..] == rest;
  }

  lemma FirstChar(x: string)
    requires OneLine(x) && x != ""
    ensures x[0] != '\n' && x[0] != '\r' && OneLine(x[1..])
  {
    assert x[0] in x && forall c :: c in x[1..] ==> c in x;
  }

  lemma ThreeParts(c: char, x: string, y: string)
    ensures [c] + (x + y) == ([c] + x) + y
  {
  }

  lemma {:induction false} NoBreaksBefore(x: string, rest: string)
    requires OneLine(x)
    ensures Normalise(x + rest) == x + Normalise(rest) && Substitute(x + rest) == x + Substitute(rest)
  {
    if x == "" {
      assert x + rest == rest && "" + Normalise(rest) == Normalise(rest) && "" + Substitute(rest) == Substitute(rest);
    } else {
      hide Normalise, Substitute, OneLine;
      FirstChar(x);
      var c, more := x[0], x[1..];
      NoBreaksBefore(more, rest);
      CharFirst(c, more + rest);
      assert x == [c] + more && x + rest == [c] + (more + rest);
      ThreeParts(c, more, Normalise(rest));
      ThreeParts(c, more, Substitute(rest));
    }
  }

  lemma OneBreak(end: string, rest: string)
    requires end in ["\r\n", "\n", "\r"]
    requires end == "\r" ==> rest == "" || rest[0] != '\n'
    ensures Normalise(end + rest) == "\n" + Normalise(rest) && Substitute(end + rest) == BREAK + Substitute(rest)
  {
    var s := end + rest;
    assert s[|end|..] == rest;
  }

  /** Whichever of the three breaks each line ends with, it is one line feed after normalising
      and one placeholder after substituting. */
  lemma {:induction false} BreaksAreOne(lines: seq<Line>, rest: string)
    requires LinesOk(lines) && OneLine(rest)
    ensures Normalise(Laid(lines, rest)) == Ended(lines, "\n", rest)
    ensures Substitute(Laid(lines, rest)) == Ended(lines, BREAK, rest)
  {
    if lines == [] {
      NoBreaksBefore(rest, "");
      assert rest + "" == rest;
    } else {
      var more := lines[1..];
      assert LinesOk(more) by {
        assert forall i :: 0 <= i < |more| ==> more[i] == lines[i + 1];
      }
      BreaksAreOne(more, rest);
      NoBreaksBefore(lines[0].text, lines[0].end + Laid(more, rest));
      if lines[0].end == "\r" { StartOfNext(lines, rest); }
      OneBreak(lines[0].end, Laid(more, rest));
    }
  }

  lemma StartOfNext(lines: seq<Line>, rest: string)
    requires LinesOk(lines) && OneLine(rest) && lines != [] && lines[0].end == "\r"
    ensures Laid(lines[1..], rest) == "" || Laid(lines[1..], rest)[0] != '\n'
  {
    if |lines| == 1 {
      if rest != "" { assert rest[0] in rest; }
    } else {
      var next := lines[1];
      assert lines[1..][0] == next && OneLine(next.text);
      if next.text != "" { assert next.text[0] in next.text; }
    }
  }

  /** A stretch without the letter W or a line break is in the substituted text just when it
      is in the original. */
  lemma {:induction false} PrefixKept(s: string, t: string)
    requires forall i :: 0 <= i < |t| ==> t[i] != 'W' && t[i] != '\n' && t[i] != '\r'
    ensures StartsWith(Substitute(s), t) <==> StartsWith(s, t)
    ensures StartsWith(s, t) ==> |t| <= |s| && |t| <= |Substitute(s)| && Substitute(s)[|t|..] == Substitute(s[|t|..])
    decreases |t|
  {
    if t == "" || s == "" {
      assert s[0..] == s && Substitute(s)[0..] == Substitute(s);
    } else if s[0] == '\n' || s[0] == '\r' {
      assert Substitute(s)[0] == 'W';
    } else {
      PrefixKept(s[1..], t[1..]);
      assert Substitute(s)[0] == s[0] && Substitute(s)[1..] == Substitute(s[1..]);
      if StartsWith(s, t) {
        assert s[1..][|t| - 1..] == s[|t|..];
        assert Substitute(s)[|t|..] == Substitute(s)[1..][|t| - 1..];
      }
    }
  }

  /** A placeholder at the front of substituted text is a line break or stood there before. */
  lemma SubstituteChar(s: string)
    requires s != "" && s[0] != '\n' && s[0] != '\r'
    ensures Substitute(s) != "" && Substitute(s)[0] == s[0] && Substitute(s)[1..] == Substitute(s[1..])
  {
  }

  lemma BreakTail()
    ensures forall i :: 0 <= i < |BREAK[1..]| ==> BREAK[1..][i] != 'W' && BREAK[1..][i] != '\n' && BREAK[1..][i] != '\r'
  {
  }

  /** A placeholder at the front of substituted text is a line break or stood there before. */
  lemma BreakAtFront(s: string)
    requires s != "" && s[0] != '\n' && s[0] != '\r'
    ensures AtBreak(Substitute(s), 0) <==> AtBreak(s, 0)
    ensures AtBreak(s, 0) ==> Substitute(s)[BREAK_LEN..] == Substitute(s[BREAK_LEN..])
  {
    hide Substitute;
    var t := BREAK[1..];
    StartsWithAt(s, BREAK);
    StartsWithAt(Substitute(s), BREAK);
    BreakTail();
    PrefixKept(s[1..], t);
    SubstituteChar(s);
    if AtBreak(s, 0) {
      assert s[1..][BREAK_LEN - 1..] == s[BREAK_LEN..];
      assert Substitute(s)[BREAK_LEN..] == Substitute(s)[1..][BREAK_LEN - 1..];
    }
  }

  lemma RestoreFront(s: string)
    ensures RestoreText(BREAK + s) == "\n" + RestoreText(s)
  {
    assert (BREAK + s)[0..BREAK_LEN] == BREAK && (BREAK + s)[BREAK_LEN..] == s;
  }

  lemma BreakLater(s: string, n: nat)
    requires n <= |s|
    ensures HasBreak(s[n..]) ==> HasBreak(s)
    ensures HasBreak(s) && (forall i :: 0 <= i < n ==> !AtBreak(s, i)) ==> HasBreak(s[n..])
  {
    if HasBreak(s[n..]) {
      var x :| AtBreak(s[n..], x);
      assert s[n..][x..x + BREAK_LEN] == s[n + x..n + x + BREAK_LEN];
      assert AtBreak(s, n + x);
    }
    if HasBreak(s) && forall i :: 0 <= i < n ==> !AtBreak(s, i) {
      var x :| AtBreak(s, x);
      assert s[n..][x - n..x - n + BREAK_LEN] == s[x..x + BREAK_LEN];
      assert AtBreak(s[n..], x - n);
    }
  }

  lemma NotAtBreak(s: string, i: nat)
    requires i < |s| && (s[i] == '\n' || s[i] == '\r')
    ensures !AtBreak(s, i)
  {
    if AtBreak(s, i) { BreakChars(s, i, i); }
  }

  lemma {:induction false} NormaliseLength(s: string, n: nat)
    requires n <= |s| && forall i :: 0 <= i < n ==> s[i] != '\r' && s[i] != '\n'
    ensures |Normalise(s)| == n + |Normalise(s[n..])|
    decreases n
  {
    if n == 0 {
      assert s[0..] == s;
    } else {
      NormaliseLength(s[1..], n - 1);
      assert s[1..][n - 1..] == s[n..];
    }
  }

  /** Substituting and restoring normalises line breaks exactly for texts without the
      placeholder; any other text gets shorter. */
  lemma {:induction false} RestoreSubstitute(s: string)
    ensures !HasBreak(s) ==> RestoreText(Substitute(s)) == Normalise(s)
    ensures |RestoreText(Substitute(s))| <= |Normalise(s)|
    ensures HasBreak(s) ==> |RestoreText(Substitute(s))| < |Normalise(s)|
    decreases |s|
  {
    if s == "" {
    } else if |s| >= 2 && s[0] == '\r' && s[1] == '\n' {
      RestoreSubstitute(s[2..]);
      RestoreFront(Substitute(s[2..]));
      NotAtBreak(s, 0);
      NotAtBreak(s, 1);
      BreakLater(s, 2);
    } else if s[0] == '\n' || s[0] == '\r' {
      RestoreSubstitute(s[1..]);
      RestoreFront(Substitute(s[1..]));
      NotAtBreak(s, 0);
      BreakLater(s, 1);
    } else {
      BreakAtFront(s);
      if AtBreak(s, 0) {
        RestoreSubstitute(s[BREAK_LEN..]);
        forall i | 0 <= i < BREAK_LEN ensures s[i] != '\r' && s[i] != '\n' {
          BreakChars(s, 0, i);
          NoLineBreaks(i);
        }
        NormaliseLength(s, BREAK_LEN);
        ShorterByTen(s);
      } else {
        RestoreSubstitute(s[1..]);
        assert Substitute(s)[0] == s[0] && Substitute(s)[1..] == Substitute(s[1..]);
        BreakLater(s, 1);
      }
    }
  }

  lemma NoLineBreaks(i: nat)
    requires i < BREAK_LEN
    ensures BREAK[i] != '\r' && BREAK[i] != '\n'
  {
  }

  lemma ShorterByTen(s: string)
    requires AtBreak(s, 0) && AtBreak(Substitute(s), 0) && Substitute(s)[BREAK_LEN..] == Substitute(s[BREAK_LEN..])
    ensures |RestoreText(Substitute(s))| == 1 + |RestoreText(Substitute(s[BREAK_LEN..]))|
  {
  }
}
