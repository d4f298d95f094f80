/** The wikitext span injector: a recursive parser with a shared cursor. Whatever the markup
    table matches, it terminates, changes no text and keeps the tag discipline. */
module SpanParser {
  import opened Wrappers
  import opened SpanText
  import opened Roster

  datatype Range = Range(start: nat, end: nat)

  /** A markup: how its start and, for a block, its end are found at or after a position. */
  datatype Markup = Markup(
    single: bool, noSpans: bool, noJump: bool,
    startAt: (string, nat) -> Option<Range>, endAt: (string, nat) -> Option<Range>)

  datatype SpecialElem = SpecialElem(markupIdx: nat, start: nat, startLen: nat)

  ghost predicate InText(text: string, pos: nat, r: Option<Range>) {
    r.Some? ==> pos <= r.value.start < r.value.end <= |text|
  }

  /** Matches are non-empty and at or after the cursor. A single markup is not searched for
      further markups; neither its end nor a block's end lies inside a placeholder, and only
      single markups start at a placeholder. */
  ghost predicate MarkupOk(m: Markup, text: string) {
    && (m.single ==> m.noJump)
    && forall pos: nat :: pos <= |text| ==> MatchesOk(m, text, pos)
  }

  ghost predicate MatchesOk(m: Markup, text: string, pos: nat) {
    && InText(text, pos, m.startAt(text, pos)) && InText(text, pos, m.endAt(text, pos))
    && (m.startAt(text, pos).Some? ==>
          && (m.single ==> !Inside(text, m.startAt(text, pos).value.end))
          && (AtBreak(text, m.startAt(text, pos).value.start) ==> m.single))
    && (m.endAt(text, pos).Some? ==> !Inside(text, m.endAt(text, pos).value.end))
  }

  /** The markup finds the first placeholder and nothing else. */
  ghost predicate FindsBreaks(m: Markup, text: string) {
    && (forall pos: nat :: m.startAt(text, pos).Some? ==> AtBreak(text, m.startAt(text, pos).value.start))
    && forall pos: nat, s: nat :: pos <= s && AtBreak(text, s) ==>
         m.startAt(text, pos).Some? && m.startAt(text, pos).value.start <= s
  }

  ghost predicate TableOk(table: seq<Markup>, text: string) {
    && (forall i :: 0 <= i < |table| ==> MarkupOk(table[i], text))
    && exists i :: 0 <= i < |table| && FindsBreaks(table[i], text)
  }

  /** A token is found to end after the cursor, or not at all. */
  ghost predicate FinderOk(find: (string, nat, string) -> Option<nat>, text: string) {
    forall pos: nat, needle :: pos <= |text| && find(text, pos, needle).Some?
        ==> pos < find(text, pos, needle).value <= |text|
  }

  // ----- which tokens are found -----

  /** The tokens that are found, each from the end of the one before, whatever the markup. */
  function Located(find: (string, nat, string) -> Option<nat>, text: string, tokens: seq<Token>, k: nat,
      pos: nat): seq<nat>
    decreases |tokens| - k
  {
    if k >= |tokens| then []
    else
      match find(text, pos, tokens[k].str)
      case None => Located(find, text, tokens, k + 1, pos)
      case Some(end) => [k] + Located(find, text, tokens, k + 1, end)
  }

  /** What is still to be found follows from token `k` and the cursor. */
  ghost predicate ToLocate(find: (string, nat, string) -> Option<nat>, text: string, tokens: seq<Token>,
      found: seq<nat>, k: nat, pos: nat) {
    Located(find, text, tokens, 0, 0) == found + Located(find, text, tokens, k, pos)
  }

  /** Token `k` is the last one found, with its end; or all are found. */
  ghost predicate Placed(find: (string, nat, string) -> Option<nat>, text: string, tokens: seq<Token>,
      found: seq<nat>, k: nat, end: Option<nat>) {
    match end
    case None => Located(find, text, tokens, 0, 0) == found
    case Some(e) => k in found && ToLocate(find, text, tokens, found, k + 1, e)
  }

  lemma LocateNext(find: (string, nat, string) -> Option<nat>, text: string, tokens: seq<Token>, found: seq<nat>,
      k: nat, pos: nat)
    requires ToLocate(find, text, tokens, found, k, pos)
    ensures k >= |tokens| ==> Placed(find, text, tokens, found, k, None)
    ensures k < |tokens| ==>
      match find(text, pos, tokens[k].str)
      case None => ToLocate(find, text, tokens, found, k + 1, pos)
      case Some(end) => Placed(find, text, tokens, found + [k], k, Some(end))
  {
    assert found + [] == found;
    if k < |tokens| && find(text, pos, tokens[k].str).Some? {
      var rest := Located(find, text, tokens, k + 1, find(text, pos, tokens[k].str).value);
      assert found + ([k] + rest) == (found + [k]) + rest && (found + [k])[|found|] == k;
    }
  }

  function ClosingTag(open: bool): seq<Elem> {
    if open then [Close] else []
  }

  /** No row of the table finds anything in the text. */
  ghost predicate NoMarkup(table: seq<Markup>, text: string) {
    forall i, pos: nat :: 0 <= i < |table| ==> table[i].startAt(text, pos).None?
  }

  /** Every token found so far has its span, in order, the current one excepted. */
  ghost predicate EachSpanned(out: seq<Elem>, found: seq<nat>, k: nat, end: Option<nat>) {
    found == SpanIds(out) + if end.Some? then [k] else []
  }

  lemma SpannedMore(out: seq<Elem>, found: seq<nat>, k: nat, end: Option<nat>)
    requires found == SpanIds(out)
    ensures EachSpanned(out, found, k, None) && (end.Some? ==> EachSpanned(out, found + [k], k, end))
  {
    assert found + [] == found;
  }

  lemma AllSpanned(out: seq<Elem>, found: seq<nat>, k: nat)
    requires EachSpanned(out, found, k, None)
    ensures SpanIds(out) == found
  {
    assert SpanIds(out) + [] == SpanIds(out);
  }

  /** Only found tokens have spans. */
  ghost predicate IdsFound(out: seq<Elem>, found: seq<nat>) {
    forall i :: 0 <= i < |SpanIds(out)| ==> SpanIds(out)[i] in found
  }

  lemma IdsKept(out: seq<Elem>, out': seq<Elem>, found: seq<nat>, found': seq<nat>)
    requires IdsFound(out, found) && SpanIds(out') == SpanIds(out) && found <= found'
    ensures IdsFound(out', found')
  {
    hide SpanIds;
    forall i | 0 <= i < |SpanIds(out)| ensures SpanIds(out)[i] in found' {
      var j :| 0 <= j < |found| && found[j] == SpanIds(out)[i];
      assert found'[j] == found[j];
    }
  }

  lemma IdsOpened(out: seq<Elem>, t: Elem, found: seq<nat>)
    requires IdsFound(out, found) && t.Open? && t.id in found
    ensures IdsFound(out + [t], found)
  {
    StateOfOne(out, t);
    hide SpanIds;
  }

  // ----- the table's own rows meet the conditions -----

  /** The row for line breaks: a run of placeholders. */
  function BreakRun(text: string, pos: nat): Option<Range> {
    match FindLiteral(text, BREAK, pos)
    case None => None
    case Some(s) => Some(Range(s, RunEnd(text, s)))
  }

  function NoMatch(text: string, pos: nat): Option<Range> {
    None
  }

  const BREAK_ROW := Markup(true, true, true, BreakRun, NoMatch)

  lemma BreakRowOk(text: string)
    ensures MarkupOk(BREAK_ROW, text) && FindsBreaks(BREAK_ROW, text)
  {
    var m := BREAK_ROW;
    forall pos: nat | pos <= |text| ensures MatchesOk(m, text, pos) {
      if m.startAt(text, pos).Some? {
        RunEndClear(text, m.startAt(text, pos).value.start);
      }
    }
  }

  lemma BreakLetter(text: string, s: int, p: int)
    requires AtBreak(text, s) && s <= p < s + BREAK_LEN
    ensures text[p] in BREAK
  {
    BreakChars(text, s, p);
  }

  /** A row whose matches never start with the placeholder's first letter, and where they
      matter end in a character that is in no placeholder. Every row of the original's table
      but the one for line breaks is like this, whatever its regular expressions do. */
  ghost predicate PlainRow(m: Markup, text: string) {
    (m.single ==> m.noJump) && forall pos: nat :: pos <= |text| ==> PlainMatches(m, text, pos)
  }

  ghost predicate PlainMatches(m: Markup, text: string, pos: nat) {
    && InText(text, pos, m.startAt(text, pos)) && InText(text, pos, m.endAt(text, pos))
    && (m.startAt(text, pos).Some? ==>
          && text[m.startAt(text, pos).value.start] != 'W'
          && (m.single ==> text[m.startAt(text, pos).value.end - 1] !in BREAK))
    && (m.endAt(text, pos).Some? ==> text[m.endAt(text, pos).value.end - 1] !in BREAK)
  }

  lemma OutsideLetter(text: string, p: nat)
    requires 0 < p <= |text| && text[p - 1] !in BREAK
    ensures !Inside(text, p)
  {
    if Inside(text, p) {
      var s :| AtBreak(text, s) && s < p < s + BREAK_LEN;
      BreakLetter(text, s, p - 1);
    }
  }

  lemma PlainRowOk(m: Markup, text: string)
    requires PlainRow(m, text)
    ensures MarkupOk(m, text)
  {
    hide Inside;
    forall pos: nat | pos <= |text| ensures MatchesOk(m, text, pos) {
      assert PlainMatches(m, text, pos);
      var start, end := m.startAt(text, pos), m.endAt(text, pos);
      if start.Some? {
        if AtBreak(text, start.value.start) { BreakChars(text, start.value.start, start.value.start); }
        if m.single { OutsideLetter(text, start.value.end); }
      }
      if end.Some? { OutsideLetter(text, end.value.end); }
    }
  }

  /** A table of such rows with the row for line breaks meets all that the parser needs. */
  lemma PlainTableOk(table: seq<Markup>, text: string)
    requires BREAK_ROW in table
    requires forall m :: m in table && m != BREAK_ROW ==> PlainRow(m, text)
    ensures TableOk(table, text)
  {
    hide MarkupOk, PlainRow, FindsBreaks;
    BreakRowOk(text);
    forall i | 0 <= i < |table| ensures MarkupOk(table[i], text) {
      assert table[i] in table;
      if table[i] != BREAK_ROW { PlainRowOk(table[i], text); }
    }
    var i :| 0 <= i < |table| && table[i] == BREAK_ROW;
    assert FindsBreaks(table[i], text);
  }

  // ----- what has been written so far -----

  ghost predicate IdsOk(ids: seq<nat>, top: nat) {
    (forall i, j :: 0 <= i < j < |ids| ==> ids[i] <= ids[j]) && forall i :: 0 <= i < |ids| ==> ids[i] <= top
  }

  ghost predicate ClassesOk(tokens: seq<Token>, out: seq<Elem>) {
    forall e :: e in out && e.Open? ==> e.id < |tokens| && e.className == tokens[e.id].className
  }

  /** The output is the text before the cursor with well-placed, unnested spans whose ids
      never decrease and whose classes are those of their tokens. */
  ghost predicate Written(tokens: seq<Token>, text: string, out: seq<Elem>, pos: nat, open: bool, top: nat) {
    && pos <= |text| && Erase(out) == text[..pos] && SpanState(out) == Some(open)
    && IdsOk(SpanIds(out), top) && ClassesOk(tokens, out) && TagsClear(out, text)
  }

  lemma WriteText(tokens: seq<Token>, text: string, out: seq<Elem>, pos: nat, open: bool, top: nat, to: nat)
    requires Written(tokens, text, out, pos, open, top) && pos <= to <= |text|
    ensures Written(tokens, text, out + Chars(text[pos..to]), to, open, top)
    ensures SpanIds(out + Chars(text[pos..to])) == SpanIds(out)
  {
    hide Erase, SpanState, SpanIds, TagsClear, IdsOk;
    var s := text[pos..to];
    EraseAppend(out, Chars(s));
    EraseChars(s);
    assert text[..to] == text[..pos] + s;
    TextKeepsState(out, s);
    TagsClearText(out, text, s);
  }

  lemma WriteTag(tokens: seq<Token>, text: string, out: seq<Elem>, pos: nat, open: bool, top: nat, t: Elem)
    requires Written(tokens, text, out, pos, open, top) && !Inside(text, pos)
    requires t.Close? ==> open
    requires t.Open? ==> !open && t.id == top < |tokens| && t.className == tokens[top].className
    requires !t.Ch?
    ensures Written(tokens, text, out + [t], pos, t.Open?, top)
    ensures t.Close? ==> SpanIds(out + [t]) == SpanIds(out)
  {
    EraseAppend(out, [t]);
    EraseTag(t);
    StateOfOne(out, t);
    hide Erase, SpanState, SpanIds, TagsClear, Inside;
    TagsClearTag(out, text, t);
    assert SpanIds(out) + [] == SpanIds(out);
  }

  lemma WriteLater(tokens: seq<Token>, text: string, out: seq<Elem>, pos: nat, open: bool, top: nat, top': nat)
    requires Written(tokens, text, out, pos, open, top) && top <= top'
    ensures Written(tokens, text, out, pos, open, top')
  {
    hide Erase, SpanState, SpanIds, TagsClear;
  }

  // ----- the next markup -----

  /** The first match of a markup, unless its start has been jumped into already. */
  function Candidate(m: Markup, text: string, pos: nat, jumped: set<nat>): Option<Range> {
    var r := m.startAt(text, pos);
    if r.Some? && r.value.start in jumped then None else r
  }

  /** The earliest candidate of the first `n` rows; among equals the first row's. */
  ghost predicate Earliest(table: seq<Markup>, text: string, pos: nat, jumped: set<nat>, n: nat,
      best: Option<SpecialElem>)
    requires n <= |table|
  {
    && (best.Some? ==>
          && best.value.markupIdx < n
          && Candidate(table[best.value.markupIdx], text, pos, jumped)
             == Some(Range(best.value.start, best.value.start + best.value.startLen)))
    && forall i :: 0 <= i < n && Candidate(table[i], text, pos, jumped).Some? ==>
         var s := Candidate(table[i], text, pos, jumped).value.start;
         best.Some? && (best.value.start < s || (best.value.start == s && best.value.markupIdx <= i))
  }

  /** Placeholders jumped into lie behind the cursor. */
  ghost predicate BreaksPassed(text: string, jumped: set<nat>, pos: nat) {
    forall j :: j in jumped && AtBreak(text, j) ==> j < pos
  }

  /** The element starts no later than any placeholder still ahead. */
  ghost predicate CoversBreaks(text: string, pos: nat, next: Option<SpecialElem>) {
    forall s: nat :: pos <= s && AtBreak(text, s) ==> next.Some? && next.value.start <= s
  }

  lemma EarliestCovers(table: seq<Markup>, text: string, pos: nat, jumped: set<nat>, best: Option<SpecialElem>)
    requires TableOk(table, text) && pos <= |text| && BreaksPassed(text, jumped, pos)
    requires Earliest(table, text, pos, jumped, |table|, best)
    ensures CoversBreaks(text, pos, best)
  {
    var k :| 0 <= k < |table| && FindsBreaks(table[k], text);
    forall s: nat | pos <= s && AtBreak(text, s) ensures best.Some? && best.value.start <= s {
      var r := table[k].startAt(text, pos);
      assert AtBreak(text, r.value.start) && r.value.start <= s;
      assert MatchesOk(table[k], text, pos);
      assert Candidate(table[k], text, pos, jumped) == r;
    }
  }

  /** What a found element promises. */
  ghost predicate ElemOk(table: seq<Markup>, text: string, e: SpecialElem) {
    && e.markupIdx < |table| && e.start < |text| && e.start + e.startLen <= |text| && 0 < e.startLen
    && (table[e.markupIdx].single ==> !Inside(text, e.start + e.startLen))
    && (AtBreak(text, e.start) ==> table[e.markupIdx].single) && !NoMarkup(table, text)
  }

  lemma EarliestOk(table: seq<Markup>, text: string, pos: nat, jumped: set<nat>, best: Option<SpecialElem>)
    requires TableOk(table, text) && pos <= |text| && Earliest(table, text, pos, jumped, |table|, best) && best.Some?
    ensures ElemOk(table, text, best.value) && pos <= best.value.start && best.value.start !in jumped
  {
    hide Inside, AtBreak, FindsBreaks;
    var m := table[best.value.markupIdx];
    assert MarkupOk(m, text);
    assert MatchesOk(m, text, pos);
  }

  ghost predicate TallyOk(tokens: seq<Token>, found: seq<nat>, editors: map<string, EditorState>) {
    Found(tokens, found) && editors == Tally(tokens, found)
  }

  ghost predicate UpTo(found: seq<nat>, k: int) {
    forall i :: 0 <= i < |found| ==> found[i] <= k
  }

  lemma Registers(tokens: seq<Token>, found: seq<nat>, editors: map<string, EditorState>, k: nat)
    requires TallyOk(tokens, found, editors) && UpTo(found, k - 1) && k < |tokens|
    ensures TallyOk(tokens, found + [k], Register(editors, tokens[k])) && UpTo(found + [k], k)
  {
    TallyMore(tokens, found, k);
    hide Tally, Register;
  }

  lemma UpToLater(found: seq<nat>, k: int)
    requires UpTo(found, k)
    ensures UpTo(found, k + 1)
  {
  }

  class Parser {
    const text: string
    const tokens: seq<Token>
    const table: seq<Markup>
    const find: (string, nat, string) -> Option<nat>
    var tokenIndex: nat
    var tokenEnd: Option<nat>
    var pos: nat
    var openSpan: bool
    var jumped: set<nat>
    var out: seq<Elem>
    var editors: map<string, EditorState>
    ghost var found: seq<nat>
    /** Whether the running frame is one that was jumped into. */
    ghost var nested: bool

    ghost predicate Core()
      reads this
    {
      && TableOk(table, text) && FinderOk(find, text)
      && Written(tokens, text, out, pos, openSpan, tokenIndex)
      && TallyOk(tokens, found, editors) && IdsFound(out, found)
      && forall j :: j in jumped ==> j < |text|
    }

    ghost predicate Valid()
      reads this
    {
      && Core() && UpTo(found, tokenIndex) && Placed(find, text, tokens, found, tokenIndex, tokenEnd)
      && (tokenEnd.Some? ==> pos < tokenEnd.value <= |text| && tokenIndex < |tokens|)
      && (NoMarkup(table, text) ==> EachSpanned(out, found, tokenIndex, tokenEnd))
    }

    /** Positions no markup has been jumped into yet. */
    ghost function Unjumped(): set<nat>
      reads this
    {
      set i: nat | i < |text| && i !in jumped
    }

    constructor (wikitext: string, tokens: seq<Token>, table: seq<Markup>, find: (string, nat, string) -> Option<nat>)
      requires TableOk(table, Substitute(wikitext)) && FinderOk(find, Substitute(wikitext))
      ensures Core() && UpTo(found, tokenIndex - 1) && ToLocate(find, text, tokens, found, tokenIndex, pos)
      ensures found == [] && pos == 0 && jumped == {} && !openSpan && tokenIndex == 0 && out == [] && !nested
      ensures text == Substitute(wikitext) && this.tokens == tokens && this.table == table && this.find == find
    {
      text, this.tokens, this.table, this.find := Substitute(wikitext), tokens, table, find;
      tokenIndex, tokenEnd, pos, openSpan, jumped, out := 0, None, 0, false, {}, [];
      editors, found, nested := map[], [], false;
    }

    /** Moves on to the next token that can be found and registers its editor; the others are
        skipped. */
    method SetToken()
      requires Core() && UpTo(found, tokenIndex - 1) && ToLocate(find, text, tokens, found, tokenIndex, pos)
      requires NoMarkup(table, text) ==> found == SpanIds(out)
      modifies this`tokenIndex, this`tokenEnd, this`editors, this`found
      ensures found == old(found) + if tokenIndex < |tokens| then [tokenIndex] else []
      ensures Valid() && old(tokenIndex) <= tokenIndex
      ensures tokenEnd == (if tokenIndex < |tokens| then find(text, pos, tokens[tokenIndex].str) else None)
      ensures tokenIndex < |tokens| ==> tokenEnd.Some?
      ensures forall k :: old(tokenIndex) <= k < tokenIndex && k < |tokens| ==> find(text, pos, tokens[k].str).None?
    {
      hide Written, TableOk, TallyOk, UpTo, ToLocate, Placed, Located, IdsFound, SpanIds, NoMarkup, EachSpanned;
      while tokenIndex < |tokens|
        invariant old(tokenIndex) <= tokenIndex && found == old(found)
        invariant TallyOk(tokens, found, editors) && UpTo(found, tokenIndex - 1)
        invariant ToLocate(find, text, tokens, found, tokenIndex, pos)
        invariant forall k :: old(tokenIndex) <= k < tokenIndex && k < |tokens| ==> find(text, pos, tokens[k].str).None?
        decreases |tokens| - tokenIndex
      {
        var end := find(text, pos, tokens[tokenIndex].str);
        LocateNext(find, text, tokens, found, tokenIndex, pos);
        if end.Some? {
          tokenEnd := end;
          Registers(tokens, found, editors, tokenIndex);
          IdsKept(out, out, found, found + [tokenIndex]);
          if NoMarkup(table, text) { SpannedMore(out, found, tokenIndex, end); }
          editors := Register(editors, tokens[tokenIndex]);
          found := found + [tokenIndex];
          CursorInText(old(tokenIndex));
          WriteLater(tokens, text, out, pos, openSpan, old(tokenIndex), tokenIndex);
          return;
        }
        UpToLater(found, tokenIndex - 1);
        tokenIndex := tokenIndex + 1;
      }
      tokenEnd := None;
      if NoMarkup(table, text) { SpannedMore(out, found, tokenIndex, None); }
      LocateNext(find, text, tokens, found, tokenIndex, pos);
      UpToLater(found, tokenIndex - 1);
      WriteLater(tokens, text, out, pos, openSpan, old(tokenIndex), tokenIndex);
    }

    lemma CursorInText(top: nat)
      requires Written(tokens, text, out, pos, openSpan, top)
      ensures pos <= |text|
    {
    }

    /** The earliest markup start at or after the cursor that was not jumped into yet. */
    method FindNextSpecialMarkup() returns (best: Option<SpecialElem>)
      requires Core()
      ensures Earliest(table, text, pos, jumped, |table|, best)
      ensures best.Some? ==> ElemOk(table, text, best.value) && pos <= best.value.start && best.value.start !in jumped
      ensures BreaksPassed(text, jumped, pos) ==> CoversBreaks(text, pos, best)
    {
      hide Written, TableOk, TallyOk, UpTo, ElemOk, BreaksPassed, CoversBreaks;
      best := None;
      for idx := 0 to |table|
        invariant Earliest(table, text, pos, jumped, idx, best)
      {
        var r := table[idx].startAt(text, pos);
        if r.Some? {
          if r.value.start in jumped {
            continue;
          }
          RangeInText(idx);
          var candidate := SpecialElem(idx, r.value.start, r.value.end - r.value.start);
          if !(best.Some? && best.value.start <= candidate.start) {
            best := Some(candidate);
          }
        }
      }
      CursorInText(tokenIndex);
      if best.Some? {
        EarliestOk(table, text, pos, jumped, best);
      }
      if BreaksPassed(text, jumped, pos) {
        EarliestCovers(table, text, pos, jumped, best);
      }
    }

    lemma RangeInText(idx: nat)
      requires Core() && idx < |table|
      ensures pos <= |text| && InText(text, pos, table[idx].startAt(text, pos))
          && InText(text, pos, table[idx].endAt(text, pos))
    {
      hide Inside, AtBreak, FindsBreaks;
      assert MarkupOk(table[idx], text);
      assert MatchesOk(table[idx], text, pos);
    }

    /** Where the element ends; a block's end is searched from the cursor, wherever the block
        started, and an unclosed block reaches to the end of the text. */
    method SpecialElemEnd(e: SpecialElem) returns (r: Range)
      requires Core() && ElemOk(table, text, e)
      requires table[e.markupIdx].single ==> pos <= e.start + e.startLen
      ensures pos <= r.end <= |text| && !Inside(text, r.end)
      ensures table[e.markupIdx].single ==> r == Range(e.start, e.start + e.startLen)
    {
      var m := table[e.markupIdx];
      EndsClear(text);
      assert MarkupOk(m, text) && MatchesOk(m, text, pos);
      hide Written, TableOk, TallyOk, UpTo, Inside;
      if m.single {
        return Range(e.start, e.start + e.startLen);
      }
      if pos >= |text| {
        return Range(|text|, |text|);
      }
      var end := m.endAt(text, pos);
      match end {
        case Some(range) => r := range;
        case None => r := Range(|text|, |text|);
      }
    }

    /** Copies text up to `to`. */
    method PushText(to: nat)
      requires Core() && pos <= to <= |text|
      modifies this`out, this`pos
      ensures Core() && pos == to && SpanIds(out) == SpanIds(old(out))
      ensures out == old(out) + Chars(text[old(pos)..to])
    {
      hide Written, TableOk, FinderOk, TallyOk, UpTo, SpanIds, Chars, IdsFound;
      WriteText(tokens, text, out, pos, openSpan, tokenIndex, to);
      IdsKept(out, out + Chars(text[pos..to]), found, found);
      out := out + Chars(text[pos..to]);
      pos := to;
    }

    method CloseSpan()
      requires Core() && !Inside(text, pos)
      modifies this`out, this`openSpan
      ensures Core() && !openSpan && SpanIds(out) == SpanIds(old(out))
      ensures out == old(out) + ClosingTag(old(openSpan))
    {
      hide Written, TableOk, TallyOk, UpTo, Inside, IdsFound, SpanIds;
      if openSpan {
        WriteTag(tokens, text, out, pos, openSpan, tokenIndex, Close);
        IdsKept(out, out + [Close], found, found);
        out := out + [Close];
        openSpan := false;
      }
    }

    /** Closes the open span, if any, and opens one for the current token if asked to. */
    method AddSpans(className: string, newSpan: bool)
      requires Core() && !Inside(text, pos) && tokenIndex < |tokens| && tokenIndex in found
      requires className == tokens[tokenIndex].className
      modifies this`out, this`openSpan
      ensures Core() && openSpan == newSpan
      ensures out == old(out) + ClosingTag(old(openSpan)) + (if newSpan then [Open(className, tokenIndex)] else [])
      ensures SpanIds(out) == SpanIds(old(out)) + (if newSpan then [tokenIndex] else [])
    {
      hide Written, TableOk, TallyOk, UpTo, Inside, IdsFound, SpanIds;
      CloseSpan();
      if newSpan {
        WriteTag(tokens, text, out, pos, openSpan, tokenIndex, Open(className, tokenIndex));
        IdsOpened(out, Open(className, tokenIndex), found);
        StateOfOne(out, Open(className, tokenIndex));
        out := out + [Open(className, tokenIndex)];
        openSpan := true;
      }
    }

    /** Writes up to the end of the current token, in a span if asked to, and moves on. */
    method ConsumeToken(addSpans: bool)
      requires Valid() && tokenEnd.Some? && (addSpans ==> !Inside(text, pos))
      requires addSpans == !nested && (nested ==> !NoMarkup(table, text))
      modifies this`out, this`openSpan, this`pos, this`tokenIndex, this`tokenEnd, this`editors, this`found
      ensures Valid() && pos == old(tokenEnd).value && old(tokenIndex) < tokenIndex
      ensures found == old(found) + if tokenIndex < |tokens| then [tokenIndex] else []
      ensures tokenEnd.Some? <==> tokenIndex < |tokens|
      ensures out == old(out)
          + (if addSpans then ClosingTag(old(openSpan))
                + [Open(tokens[old(tokenIndex)].className, old(tokenIndex))] else [])
          + Chars(text[old(pos)..old(tokenEnd).value])
      ensures SpanIds(out) == SpanIds(old(out)) + if addSpans then [old(tokenIndex)] else []
      ensures openSpan == (addSpans || old(openSpan))
    {
      hide Written, TableOk, TallyOk, UpTo, Inside, ToLocate, Located, IdsFound, SpanIds, NoMarkup;
      if addSpans {
        AddSpans(tokens[tokenIndex].className, true);
      }
      PushText(tokenEnd.value);
      WriteLater(tokens, text, out, pos, openSpan, tokenIndex, tokenIndex + 1);
      tokenIndex := tokenIndex + 1;
      SetToken();
    }

    /** No token left: the rest of the text, and no span after it. */
    method FlushRest()
      requires Valid() && tokenEnd.None?
      modifies this`out, this`openSpan, this`pos, this`tokenEnd
      ensures Valid() && pos == |text| && !openSpan && SpanIds(out) == SpanIds(old(out))
      ensures tokenEnd.None? && out == old(out) + Chars(text[old(pos)..]) + ClosingTag(old(openSpan))
    {
      EndsClear(text);
      hide TableOk, Inside, Erase, SpanState, SpanIds, TagsClear, IdsFound, Placed, NoMarkup;
      PushText(|text|);
      tokenEnd := None;
      CloseSpan();
    }

    /** The context a frame is entered in: the outermost frame adds spans and starts outside
        placeholders; any other has been jumped into for its element. */
    ghost predicate FrameOk(addSpans: bool, special: Option<SpecialElem>, noJump: bool)
      reads this
    {
      addSpans == !nested &&
      match special
      case None => addSpans && !noJump && !Inside(text, pos) && BreaksPassed(text, jumped, pos)
      case Some(e) =>
        && !addSpans && ElemOk(table, text, e) && noJump == table[e.markupIdx].noJump
        && pos <= e.start && BreaksPassed(text, jumped - {e.start}, pos)
    }

    /** Jumps into a markup: the open span is closed, and a new one opened in front of the
        markup if the outermost frame jumps and the markup allows it. */
    method Descend(addSpans: bool, next: SpecialElem)
      requires Valid() && tokenEnd.Some? && (addSpans ==> !Inside(text, pos)) && addSpans == !nested
      requires ElemOk(table, text, next) && next.start !in jumped && pos <= next.start
          && BreaksPassed(text, jumped, pos)
      modifies this
      ensures Valid() && old(pos) <= pos && old(tokenIndex) <= tokenIndex && old(jumped) <= jumped
          && Unjumped() < old(Unjumped())
      ensures !Inside(text, pos) && BreaksPassed(text, jumped, pos) && nested == old(nested)
      ensures SpanIds(out) == SpanIds(old(out))
          + if addSpans && !table[next.markupIdx].noSpans then [old(tokenIndex)] else []
      decreases Unjumped(), 0
    {
      hide Inside, Written, TableOk, TallyOk, UpTo, FinderOk, ElemOk, BreaksPassed, IdsFound, ToLocate, Located,
        NoMarkup, EachSpanned, SpanIds;
      ElemBounds(table, text, next);
      JumpInto(jumped, next.start, |text|);
      jumped := jumped + {next.start};
      var m := table[next.markupIdx];
      if addSpans {
        AddSpans(tokens[tokenIndex].className, !m.noSpans);
      }
      ghost var was := nested;
      nested := true;
      ParseWikiText(false, Some(next), m.noJump);
      nested := was;
    }

    /** After a jump: the end of the frame's element, if it has one, and the next markup. */
    method LookAhead(special: Option<SpecialElem>) returns (end: Option<Range>, next: Option<SpecialElem>)
      requires Core() && BreaksPassed(text, jumped, pos)
      requires special.Some? ==> ElemOk(table, text, special.value) && !table[special.value.markupIdx].single
      ensures end.Some? <==> special.Some?
      ensures end.Some? ==> pos <= end.value.end <= |text| && !Inside(text, end.value.end)
      ensures Earliest(table, text, pos, jumped, |table|, next) && CoversBreaks(text, pos, next)
      ensures next.Some? ==> ElemOk(table, text, next.value) && pos <= next.value.start && next.value.start !in jumped
    {
      hide Inside, Written, TableOk, TallyOk, UpTo, FinderOk, BreaksPassed, CoversBreaks, Earliest, IdsFound,
        NoMarkup;
      end := None;
      if special.Some? {
        var e := SpecialElemEnd(special.value);
        end := Some(e);
      }
      next := FindNextSpecialMarkup();
    }

    /** One frame of the parser: everything up to the end of its element. */
    method ParseWikiText(addSpans: bool, special: Option<SpecialElem>, noJump: bool)
      requires Valid() && FrameOk(addSpans, special, noJump)
      modifies this
      ensures Valid() && old(pos) <= pos && old(tokenIndex) <= tokenIndex && old(jumped) <= jumped
      ensures !Inside(text, pos) && BreaksPassed(text, jumped, pos) && nested == old(nested)
      ensures special.None? ==> pos == |text| && !openSpan
      ensures special.Some? ==> SpanIds(out) == SpanIds(old(out))
      decreases Unjumped(), 1
    {
      hide Inside, Written, TableOk, TallyOk, UpTo, FinderOk, ElemOk, BreaksPassed, CoversBreaks, Earliest, IdsFound,
        Placed, NoMarkup, SpanIds;
      var end: Option<Range> := None;
      if special.Some? {
        SingleStays(special.value);
        ElemBounds(table, text, special.value);
        var e := SpecialElemEnd(special.value);
        end := Some(e);
      }
      var next: Option<SpecialElem> := None;
      if !noJump {
        FrameBreaks(addSpans, special, noJump);
        next := FindNextSpecialMarkup();
      }
      while pos < |text|
        invariant Valid() && old(pos) <= pos && old(tokenIndex) <= tokenIndex && old(jumped) <= jumped
            && Unjumped() <= old(Unjumped()) && nested == old(nested)
        invariant end.Some? <==> special.Some?
        invariant special.Some? ==> SpanIds(out) == SpanIds(old(out))
        invariant end.Some? ==> pos <= end.value.end <= |text| && !Inside(text, end.value.end)
        invariant noJump ==> next.None? && special.Some? && jumped == old(jumped)
        invariant special.Some? && table[special.value.markupIdx].single ==>
          end == Some(Range(special.value.start, special.value.start + special.value.startLen))
        invariant !noJump ==> BreaksPassed(text, jumped, pos)
        invariant special.None? ==> !Inside(text, pos) && CoversBreaks(text, pos, next)
        invariant next.Some?
          ==> ElemOk(table, text, next.value) && next.value.start !in jumped && FreshOrBlocked(next.value, end, pos)
        decreases Unjumped(), |text| - pos
      {
        if tokenEnd.None? {
          FlushRest();
          AllPassed(text, jumped, pos);
          EndsClear(text);
          return;
        }
        if !noJump && (end.None? || pos < end.value.start) && next.Some?
           && (end.None? || next.value.start < end.value.start) && next.value.start < tokenEnd.value {
          Descend(addSpans, next.value);
          end, next := LookAhead(special);
          continue;
        }
        if end.Some? && end.value.end < tokenEnd.value {
          ghost var before := pos;
          PassedLater(text, jumped - {special.value.start}, old(pos), before);
          PushText(end.value.end);
          LeaveElement(special.value, noJump, before);
          return;
        }
        TokenIsClear(text, pos, next, tokenEnd.value, special.None?);
        PassedLater(text, jumped, pos, tokenEnd.value);
        ConsumeToken(addSpans);
      }
      CursorInText(tokenIndex);
      AllPassed(text, jumped, pos);
      EndsClear(text);
      CloseSpan();
    }

    lemma SingleStays(e: SpecialElem)
      requires Core() && ElemOk(table, text, e)
      ensures e.markupIdx < |table| && (table[e.markupIdx].single ==> table[e.markupIdx].noJump)
    {
      assert MarkupOk(table[e.markupIdx], text);
    }

    lemma LeaveElement(e: SpecialElem, noJump: bool, before: nat)
      requires Core() && ElemOk(table, text, e) && noJump == table[e.markupIdx].noJump && before <= pos
      requires !noJump ==> BreaksPassed(text, jumped, before)
      requires noJump ==> BreaksPassed(text, jumped - {e.start}, before)
      requires table[e.markupIdx].single ==> pos == e.start + e.startLen
      ensures BreaksPassed(text, jumped, pos)
    {
    }

    lemma FrameBreaks(addSpans: bool, special: Option<SpecialElem>, noJump: bool)
      requires Valid() && FrameOk(addSpans, special, noJump) && !noJump
      ensures BreaksPassed(text, jumped, pos)
    {
    }
  }

  lemma ElemBounds(table: seq<Markup>, text: string, e: SpecialElem)
    requires ElemOk(table, text, e)
    ensures e.markupIdx < |table| && e.start < |text| && !NoMarkup(table, text)
  {
  }

  lemma JumpInto(jumped: set<nat>, j: nat, n: nat)
    requires j !in jumped && j < n
    ensures (set i: nat | i < n && i !in jumped + {j}) < (set i: nat | i < n && i !in jumped)
    ensures jumped + {j} - {j} == jumped
  {
    var before, after := (set i: nat | i < n && i !in jumped), (set i: nat | i < n && i !in jumped + {j});
    assert after <= before && j in before && j !in after;
  }

  lemma AllPassed(text: string, jumped: set<nat>, pos: nat)
    requires pos >= |text|
    ensures BreaksPassed(text, jumped, pos)
  {
  }

  lemma PassedLater(text: string, jumped: set<nat>, pos: nat, to: nat)
    requires pos <= to
    ensures BreaksPassed(text, jumped, pos) ==> BreaksPassed(text, jumped, to)
  {
  }

  /** In the outermost frame a token that ended inside a placeholder would have been preceded
      by a jump into that placeholder. */
  lemma TokenIsClear(text: string, pos: nat, next: Option<SpecialElem>, to: nat, outermost: bool)
    requires outermost ==> !Inside(text, pos) && CoversBreaks(text, pos, next) && (next.None? || to <= next.value.start)
    requires pos < to
    ensures outermost ==> !Inside(text, to) && CoversBreaks(text, to, next)
  {
    if outermost {
      forall s: int | AtBreak(text, s) ensures !(s < to < s + BREAK_LEN) {
        if s < pos { OutsideBreak(text, pos, s); }
      }
    }
  }

  lemma OutsideBreak(text: string, pos: nat, s: int)
    requires !Inside(text, pos) && AtBreak(text, s) && s < pos
    ensures s + BREAK_LEN <= pos
  {
  }

  /** A remembered markup lies ahead, or the frame's element ends before it. */
  predicate FreshOrBlocked(next: SpecialElem, end: Option<Range>, pos: nat) {
    pos <= next.start || (end.Some? && (end.value.start <= next.start || end.value.start <= pos))
  }

  // ----- the injector -----

  /** What every injection guarantees of its tagged text. */
  ghost predicate Injected(wikitext: string, tokens: seq<Token>, out: seq<Elem>) {
    && Erase(out) == RestoreText(Substitute(wikitext))
    && (Erase(out) == Normalise(wikitext) <==> !HasBreak(wikitext))
    && SpanState(out) == Some(false) && IdsOk(SpanIds(out), |tokens|) && ClassesOk(tokens, out)
  }

  lemma Finished(wikitext: string, tokens: seq<Token>, out: seq<Elem>, pos: nat, top: nat)
    requires Written(tokens, Substitute(wikitext), out, pos, false, top) && pos == |Substitute(wikitext)|
    ensures Injected(wikitext, tokens, Restore(out)) && SpanIds(Restore(out)) == SpanIds(out)
  {
    var text := Substitute(wikitext);
    assert text[..pos] == text;
    hide Erase, TagsClear, Restore, HasBreak, SpanState, SpanIds;
    EraseRestore(out);
    RestoreSubstitute(wikitext);
    RestoreKeepsTags(out);
    TagsDecide(out);
    TagsDecide(Restore(out));
    IdsBelowTokens(tokens, out);
  }

  lemma {:induction false} IdsBelowTokens(tokens: seq<Token>, out: seq<Elem>)
    requires ClassesOk(tokens, out)
    ensures forall i :: 0 <= i < |SpanIds(out)| ==> SpanIds(out)[i] < |tokens|
  {
    if out != [] {
      var n := |out| - 1;
      assert out == out[..n] + [out[n]] && out[n] in out;
      IdsBelowTokens(tokens, out[..n]);
    }
  }

  // ----- restoring line breaks keeps the tags -----

  /** The tags of a tagged text, in order. */
  function Tags(out: seq<Elem>): seq<Elem> {
    if out == [] then [] else (if out[0].Ch? then [] else [out[0]]) + Tags(out[1..])
  }

  lemma {:induction false} TagsAppend(x: seq<Elem>, y: seq<Elem>)
    ensures Tags(x + y) == Tags(x) + Tags(y)
  {
    if x == [] {
      assert x + y == y;
    } else {
      assert (x + y)[0] == x[0] && (x + y)[1..] == x[1..] + y;
      TagsAppend(x[1..], y);
    }
  }

  lemma TagsOne(e: Elem)
    ensures Tags([e]) == if e.Ch? then [] else [e]
  {
    assert [e][1..] == [];
  }

  lemma {:induction false} TagsOfText(s: string)
    ensures Tags(Chars(s)) == []
  {
    if s != "" {
      assert Chars(s)[1..] == Chars(s[1..]);
      TagsOfText(s[1..]);
    }
  }

  lemma NoTags()
    ensures Tags([]) == []
  {
  }

  lemma TagsLast(front: seq<Elem>, e: Elem)
    ensures Tags(front + [e]) == if e.Ch? then Tags(front) else Tags(front) + [e]
  {
    TagsAppend(front, [e]);
    TagsOne(e);
    hide Tags;
    assert Tags(front) + [] == Tags(front);
  }

  lemma CharKeeps(out: seq<Elem>, e: Elem)
    requires e.Ch?
    ensures SpanState(out + [e]) == SpanState(out) && SpanIds(out + [e]) == SpanIds(out)
  {
    StateOfOne(out, e);
  }

  /** The tags alone decide the bracket state, the ids and the classes. */
  lemma {:induction false} TagsDecide(out: seq<Elem>)
    ensures SpanState(Tags(out)) == SpanState(out) && SpanIds(Tags(out)) == SpanIds(out)
    ensures forall e :: e in Tags(out) <==> e in out && !e.Ch?
  {
    hide SpanState, SpanIds, Tags;
    if out == [] {
      NoTags();
    } else {
      var n := |out| - 1;
      var front, e := out[..n], out[n];
      assert out == front + [e];
      TagsDecide(front);
      TagsLast(front, e);
      if e.Ch? {
        CharKeeps(front, e);
      } else {
        StateOfOne(front, e);
        StateOfOne(Tags(front), e);
      }
    }
  }

  lemma {:induction false} RestoreKeepsTags(out: seq<Elem>)
    ensures Tags(Restore(out)) == Tags(out)
    decreases |out|
  {
    if out == [] {
    } else if |out| >= BREAK_LEN && out[..BREAK_LEN] == Chars(BREAK) {
      RestoreKeepsTags(out[BREAK_LEN..]);
      TagsOfText(BREAK);
      assert out == out[..BREAK_LEN] + out[BREAK_LEN..];
      TagsAppend(out[..BREAK_LEN], out[BREAK_LEN..]);
      TagsAppend([Ch('\n')], Restore(out[BREAK_LEN..]));
      TagsOne(Ch('\n'));
    } else {
      RestoreKeepsTags(out[1..]);
      TagsAppend([out[0]], Restore(out[1..]));
      TagsOne(out[0]);
    }
  }
}
