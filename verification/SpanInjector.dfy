/** The injector as a whole: the tagged text as one string, in which line breaks are restored,
    and the roster of present editors. */
module SpanInjector {
  import opened Wrappers
  import opened SpanText
  import opened SpanParser
  import opened Roster

  // ----- the text of a tag -----

  function EscapeChar(c: char): string {
    match c
    case '"' => "&quot;"
    case '&' => "&amp;"
    case '<' => "&lt;"
    case '>' => "&gt;"
    case _ => [c]
  }

  function Escape(s: string): string {
    if s == "" then "" else EscapeChar(s[0]) + Escape(s[1..])
  }

  function Decimal(n: nat): (s: string)
    ensures forall c :: c in s ==> '0' <= c <= '9'
  {
    if n < 10 then [('0' as int + n) as char] else Decimal(n / 10) + [('0' as int + n % 10) as char]
  }

  const PREFIX: string := "<span " + ("class=\"" + ("editor-" + ("token " + ("token-" + "editor-"))))
  const MIDDLE: string := "\" id=\"" + "token-"
  const CLOSE: string := "</span>"

  function Suffix(id: nat): string {
    MIDDLE + (Decimal(id) + "\">")
  }

  function OpenText(attr: string, id: nat): string {
    PREFIX + (attr + Suffix(id))
  }

  /** What a reader of the attribute makes of it. */
  function Unescape(s: string): string {
    if s == "" then ""
    else if "&quot;" <= s then "\"" + Unescape(s[6..])
    else if "&amp;" <= s then "&" + Unescape(s[5..])
    else if "&lt;" <= s then "<" + Unescape(s[4..])
    else if "&gt;" <= s then ">" + Unescape(s[4..])
    else [s[0]] + Unescape(s[1..])
  }

  /** An escaped class name ends no attribute and no tag, and reads as the class name. */
  lemma {:induction false} EscapeReads(s: string)
    ensures Unescape(Escape(s)) == s && forall c :: c in Escape(s) ==> c != '"' && c != '<' && c != '>'
  {
    if s != "" {
      EscapeReads(s[1..]);
      UnescapeFirst(s[0], Escape(s[1..]));
      CharEscaped(s[0]);
      hide EscapeChar, Unescape;
    }
  }

  lemma CharEscaped(c: char)
    ensures forall d :: d in EscapeChar(c) ==> d != '"' && d != '<' && d != '>'
  {
  }

  lemma UnescapeFirst(c: char, rest: string)
    ensures Unescape(EscapeChar(c) + rest) == [c] + Unescape(rest)
  {
    var first := EscapeChar(c);
    var s := first + rest;
    assert s[..|first|] == first && s[|first|..] == rest && s[0] == first[0];
    if c == '&' { assert s[1] == 'a'; }
    if c == '<' { assert s[1] == 'l'; }
    if c == '>' { assert s[1] == 'g'; }
  }

  function FromDecimal(s: string): nat
    requires forall c :: c in s ==> '0' <= c <= '9'
  {
    if s == "" then 0
    else
      var n := |s| - 1;
      assert s == s[..n] + [s[n]] && forall c :: c in s[..n] ==> c in s;
      assert s[n] in s;
      10 * FromDecimal(s[..|s| - 1]) + (s[|s| - 1] as int - '0' as int)
  }

  /** An id is written in decimal, without leading zeros. */
  lemma {:induction false} DecimalReads(n: nat)
    ensures Decimal(n) != "" && FromDecimal(Decimal(n)) == n && (n > 0 ==> Decimal(n)[0] != '0')
  {
    if n >= 10 {
      DecimalReads(n / 10);
      var s := Decimal(n);
      assert s[..|s| - 1] == Decimal(n / 10);
    }
  }

  lemma EditorPrefix()
    ensures "token-" + "editor-" == "token-editor-"
    ensures "token " + "token-editor-" == "token token-editor-"
    ensures "editor-" + "token token-editor-" == "editor-token token-editor-"
  {
  }

  lemma SpanPrefix()
    ensures "class=\"" + "editor-token token-editor-" == "class=\"editor-token token-editor-"
  {
  }

  lemma WholePrefix()
    ensures "<span " + "class=\"editor-token token-editor-" == "<span class=\"editor-token token-editor-"
  {
  }

  lemma WholeMiddle()
    ensures MIDDLE == "\" id=\"token-"
  {
  }

  /** The tag that opens a token's span. */
  lemma OpenTag(attr: string, id: nat)
    ensures OpenText(attr, id)
         == "<span class=\"editor-token token-editor-" + (attr + ("\" id=\"token-" + (Decimal(id) + "\">")))
  {
    EditorPrefix();
    SpanPrefix();
    WholePrefix();
    WholeMiddle();
    hide Decimal;
    assert PREFIX == "<span class=\"editor-token token-editor-";
  }

  function ElemText(e: Elem): string {
    match e
    case Ch(c) => [c]
    case Open(className, id) => OpenText(Escape(className), id)
    case Close => CLOSE
  }

  /** What the parser has written. */
  function Render(out: seq<Elem>): string {
    if out == [] then "" else ElemText(out[0]) + Render(out[1..])
  }

  /** A placeholder inside a class name is restored too. */
  function ShownText(e: Elem): string {
    match e
    case Ch(c) => [c]
    case Open(className, id) => OpenText(RestoreText(Escape(className)), id)
    case Close => CLOSE
  }

  function Shown(out: seq<Elem>): string {
    if out == [] then "" else ShownText(out[0]) + Shown(out[1..])
  }

  // ----- restoring line breaks in the whole string -----

  ghost predicate Plain(s: string) {
    forall c :: c in s ==> c !in BREAK
  }

  lemma PlainAppend(x: string, y: string)
    requires Plain(x) && Plain(y)
    ensures Plain(x + y)
  {
  }

  lemma NoBreakHere(s: string)
    requires s != "" && s[0] !in BREAK
    ensures !AtBreak(s, 0)
  {
    if AtBreak(s, 0) { BreakLetter(s, 0, 0); }
  }

  lemma {:induction false} PlainFirst(x: string, y: string)
    requires Plain(x)
    ensures RestoreText(x + y) == x + RestoreText(y)
  {
    if x == "" {
      assert x + y == y;
    } else {
      assert x[0] in x && (x + y)[1..] == x[1..] + y;
      NoBreakHere(x + y);
      PlainFirst(x[1..], y);
    }
  }

  /** A character that is in no placeholder keeps what is before it from what is after it. */
  lemma {:induction false} RestoreAround(x: string, c: char, y: string)
    requires c !in BREAK
    ensures RestoreText(x + ([c] + y)) == RestoreText(x) + ([c] + RestoreText(y))
    decreases |x|
  {
    var s := x + ([c] + y);
    if x == "" {
      assert s == [c] + y;
      NoBreakHere(s);
      assert s[1..] == y;
    } else {
      BreakBefore(x, c, y);
      if AtBreak(x, 0) {
        assert s[BREAK_LEN..] == x[BREAK_LEN..] + ([c] + y);
        RestoreAround(x[BREAK_LEN..], c, y);
      } else {
        assert s[1..] == x[1..] + ([c] + y);
        RestoreAround(x[1..], c, y);
      }
    }
  }

  lemma BreakBefore(x: string, c: char, y: string)
    requires c !in BREAK
    ensures AtBreak(x + ([c] + y), 0) <==> AtBreak(x, 0)
  {
    var s := x + ([c] + y);
    assert s[|x|] == c;
    if AtBreak(s, 0) {
      if |x| < BREAK_LEN { BreakLetter(s, 0, |x|); }
      assert s[0..BREAK_LEN] == x[0..BREAK_LEN];
    }
    if AtBreak(x, 0) { assert s[0..BREAK_LEN] == x[0..BREAK_LEN]; }
  }

  lemma RestorePlain(x: string, p: string, y: string)
    requires p != "" && Plain(p)
    ensures RestoreText(x + (p + y)) == RestoreText(x) + (p + RestoreText(y))
  {
    var c, q := p[0], p[1..];
    assert c in p && p == [c] + q && forall d :: d in q ==> d in p;
    assert x + (p + y) == x + ([c] + (q + y));
    RestoreAround(x, c, q + y);
    PlainFirst(q, y);
    assert [c] + (q + RestoreText(y)) == p + RestoreText(y);
  }

  lemma SpanPlain()
    ensures Plain("<span ")
  {
  }

  lemma ClassPlain()
    ensures Plain("class=\"")
  {
  }

  lemma EditorPlain()
    ensures Plain("editor-")
  {
  }

  lemma TokenPlain()
    ensures Plain("token ")
  {
  }

  lemma TokenDashPlain()
    ensures Plain("token-")
  {
  }

  lemma IdPlain()
    ensures Plain("\" id=\"")
  {
  }

  lemma ClosePlain()
    ensures Plain("</span>")
  {
  }

  lemma TagsArePlain()
    ensures Plain(PREFIX) && Plain(MIDDLE) && Plain(CLOSE)
  {
    hide Plain;
    SpanPlain();
    ClassPlain();
    EditorPlain();
    TokenPlain();
    TokenDashPlain();
    IdPlain();
    ClosePlain();
    PlainAppend("token-", "editor-");
    PlainAppend("token ", "token-" + "editor-");
    PlainAppend("editor-", "token " + ("token-" + "editor-"));
    PlainAppend("class=\"", "editor-" + ("token " + ("token-" + "editor-")));
    PlainAppend("<span ", "class=\"" + ("editor-" + ("token " + ("token-" + "editor-"))));
    PlainAppend("\" id=\"", "token-");
  }

  lemma SuffixIsPlain(id: nat)
    ensures Plain(Suffix(id)) && Suffix(id) != ""
  {
    TagsArePlain();
    hide Decimal;
    PlainAppend(Decimal(id), "\">");
    PlainAppend(MIDDLE, Decimal(id) + "\">");
  }

  lemma TagRestored(t: Elem, rest: string)
    requires !t.Ch?
    ensures RestoreText(ElemText(t) + rest) == ShownText(t) + RestoreText(rest)
  {
    hide RestoreText, Plain, Suffix, Escape;
    TagsArePlain();
    match t {
      case Open(className, id) =>
        var attr, suffix := Escape(className), Suffix(id);
        SuffixIsPlain(id);
        assert PREFIX + (attr + suffix) + rest == PREFIX + (attr + (suffix + rest));
        PlainFirst(PREFIX, attr + (suffix + rest));
        RestorePlain(attr, suffix, rest);
        assert PREFIX + (RestoreText(attr) + (suffix + RestoreText(rest))) == PREFIX + (RestoreText(attr) + suffix)
            + RestoreText(rest);
      case Close => PlainFirst(CLOSE, rest);
    }
  }

  /** Where the string starts with characters other than the start of a tag, so do the
      elements. */
  lemma {:induction false} LeadingElems(out: seq<Elem>, t: string)
    requires |t| <= |Render(out)| && Render(out)[..|t|] == t && '<' !in t
    ensures |t| <= |out| && out[..|t|] == Chars(t)
    decreases |t|
  {
    hide Render, ElemText, Chars;
    if t == "" {
      CharsNothing();
      assert out[..0] == [];
    } else {
      RenderHead(out);
      TagStarts(out[0]);
      assert Render(out)[0] == t[0] && t[0] in t;
      assert out[0] == Ch(t[0]);
      var rest := out[1..];
      assert Render(out)[1..] == Render(rest);
      assert Render(rest)[..|t| - 1] == Render(out)[..|t|][1..] == t[1..];
      assert forall c :: c in t[1..] ==> c in t;
      LeadingElems(rest, t[1..]);
      assert out[..|t|] == [out[0]] + rest[..|t| - 1];
      CharsCons(t);
    }
  }

  lemma RenderHead(out: seq<Elem>)
    requires Render(out) != ""
    ensures out != [] && Render(out) == ElemText(out[0]) + Render(out[1..])
  {
  }

  lemma TagStarts(e: Elem)
    ensures ElemText(e) != "" && (if e.Ch? then ElemText(e) == [e.c] else ElemText(e)[0] == '<')
  {
  }

  lemma CharsNothing()
    ensures Chars("") == []
  {
  }

  lemma CharsCons(s: string)
    requires s != ""
    ensures Chars(s) == [Ch(s[0])] + Chars(s[1..])
  {
  }

  lemma {:induction false} RenderChars(s: string, rest: seq<Elem>)
    ensures Render(Chars(s) + rest) == s + Render(rest)
  {
    hide Render, Chars;
    if s == "" {
      CharsNothing();
      assert [] + rest == rest;
    } else {
      var more := Chars(s[1..]) + rest;
      CharsCons(s);
      assert Chars(s) + rest == [Ch(s[0])] + more;
      RenderChars(s[1..], rest);
      RenderCons(Ch(s[0]), more);
      assert s + Render(rest) == [s[0]] + (s[1..] + Render(rest));
    }
  }

  lemma RenderCons(e: Elem, rest: seq<Elem>)
    ensures Render([e] + rest) == ElemText(e) + Render(rest)
  {
    assert ([e] + rest)[1..] == rest;
  }

  /** Restoring line breaks in the string is restoring them in the text and in each tag. */
  lemma {:induction false} RestoreRendered(out: seq<Elem>)
    ensures RestoreText(Render(out)) == Shown(Restore(out))
    decreases |out|
  {
    hide RestoreText, ElemText, ShownText, AtBreak, Chars, Render, Shown, Restore;
    if out == [] {
      NothingRendered();
    } else if |out| >= BREAK_LEN && out[..BREAK_LEN] == Chars(BREAK) {
      RestoreRendered(out[BREAK_LEN..]);
      BreakRendered(out);
    } else {
      RestoreRendered(out[1..]);
      OtherRendered(out);
      if out[0].Ch? {
        if AtBreak(Render(out), 0) { BreakShows(out); }
        CharRendered(out);
      } else {
        TagRestored(out[0], Render(out[1..]));
      }
    }
  }

  lemma NothingRendered()
    ensures RestoreText(Render([])) == Shown(Restore([]))
  {
  }

  lemma BreakRendered(out: seq<Elem>)
    requires |out| >= BREAK_LEN && out[..BREAK_LEN] == Chars(BREAK)
    ensures RestoreText(Render(out)) == "\n" + RestoreText(Render(out[BREAK_LEN..]))
    ensures Shown(Restore(out)) == "\n" + Shown(Restore(out[BREAK_LEN..]))
  {
    var rest := out[BREAK_LEN..];
    assert out == Chars(BREAK) + rest;
    RenderChars(BREAK, rest);
    var s := Render(out);
    assert s == BREAK + Render(rest);
    assert s[0..BREAK_LEN] == BREAK && s[BREAK_LEN..] == Render(rest);
    assert Restore(out) == [Ch('\n')] + Restore(rest);
    ShownCons(Ch('\n'), Restore(rest));
  }

  lemma ShownCons(e: Elem, rest: seq<Elem>)
    ensures Shown([e] + rest) == ShownText(e) + Shown(rest)
  {
    assert ([e] + rest)[1..] == rest;
  }

  lemma OtherRendered(out: seq<Elem>)
    requires out != [] && !(|out| >= BREAK_LEN && out[..BREAK_LEN] == Chars(BREAK))
    ensures Render(out) == ElemText(out[0]) + Render(out[1..])
    ensures Shown(Restore(out)) == ShownText(out[0]) + Shown(Restore(out[1..]))
  {
    ShownCons(out[0], Restore(out[1..]));
  }

  lemma BreakShows(out: seq<Elem>)
    requires AtBreak(Render(out), 0)
    ensures |out| >= BREAK_LEN && out[..BREAK_LEN] == Chars(BREAK)
  {
    hide Render, Chars;
    var s := Render(out);
    assert s[0..BREAK_LEN] == s[..BREAK_LEN];
    LeadingElems(out, BREAK);
  }

  lemma CharRendered(out: seq<Elem>)
    requires out != [] && out[0].Ch? && !AtBreak(Render(out), 0) && Render(out) == ElemText(out[0]) + Render(out[1..])
    ensures RestoreText(Render(out)) == ShownText(out[0]) + RestoreText(Render(out[1..]))
  {
    hide Render;
    assert Render(out)[1..] == Render(out[1..]);
  }

  // ----- the injector -----

  /** The text is that of a tagged text with what every injection guarantees. Only tokens that
      are found have spans, and all of them have exactly one, in order, if there is no markup. */
  ghost predicate Tagged(wikitext: string, tokens: seq<Token>, table: seq<Markup>, text: string,
      found: seq<nat>, out: seq<Elem>) {
    && text == Shown(out) && Injected(wikitext, tokens, out) && IdsFound(out, found)
    && (NoMarkup(table, Substitute(wikitext)) ==> SpanIds(out) == found)
  }

  lemma TagsDelivered(wikitext: string, tokens: seq<Token>, table: seq<Markup>, out: seq<Elem>, pos: nat, k: nat,
      found: seq<nat>)
    requires Written(tokens, Substitute(wikitext), out, pos, false, k) && pos == |Substitute(wikitext)|
    requires IdsFound(out, found) && (NoMarkup(table, Substitute(wikitext)) ==> EachSpanned(out, found, k, None))
    ensures Tagged(wikitext, tokens, table, RestoreText(Render(out)), found, Restore(out))
  {
    hide Written, Injected, IdsFound, RestoreText, Render, Restore, SpanIds, EachSpanned, NoMarkup,
      Substitute;
    Finished(wikitext, tokens, out, pos, k);
    RestoreRendered(out);
    IdsKept(out, Restore(out), found, found);
    if NoMarkup(table, Substitute(wikitext)) { AllSpanned(out, found, k); }
  }

  /** The sorted roster of what the parser has tallied. */
  method RosterOf(tokens: seq<Token>, editors: map<string, EditorState>, ghost found: seq<nat>)
      returns (roster: seq<RosterEntry>)
    requires TallyOk(tokens, found, editors)
    ensures Found(tokens, found) && RosterOk(tokens, found, roster)
  {
    hide Tally, RosterOk;
    OrdersApart(tokens, found);
    var names;
    names, roster := SortRoster(editors);
    RosterIs(tokens, found, names, roster);
  }

  /** Substitutes line breaks, parses, restores the line breaks in the string, and sorts the
      roster, which is that of the tokens found one after the other. */
  method InjectSpansIntoWikitext(wikitext: string, tokens: seq<Token>, table: seq<Markup>,
      find: (string, nat, string) -> Option<nat>)
      returns (text: string, roster: seq<RosterEntry>)
    requires TableOk(table, Substitute(wikitext)) && FinderOk(find, Substitute(wikitext))
    ensures var found := Located(find, Substitute(wikitext), tokens, 0, 0);
      && (exists out :: Tagged(wikitext, tokens, table, text, found, out))
      && Found(tokens, found) && RosterOk(tokens, found, roster)
  {
    hide Inside, Written, TableOk, FinderOk, Tally, RosterOk, Tagged, Located, ToLocate, IdsFound, TallyOk, UpTo,
      Substitute, RestoreText, Render, BreaksPassed, NoMarkup, SpanIds, EachSpanned;
    var parser := new Parser(wikitext, tokens, table, find);
    NoSpans();
    parser.SetToken();
    NothingPassed(parser.text);
    EndsClear(parser.text);
    parser.ParseWikiText(true, None, false);
    TagsDelivered(wikitext, tokens, table, parser.out, parser.pos, parser.tokenIndex, parser.found);
    text := RestoreText(Render(parser.out));
    roster := RosterOf(tokens, parser.editors, parser.found);
    assert parser.found == Located(find, Substitute(wikitext), tokens, 0, 0);
  }

  lemma NoSpans()
    ensures SpanIds([]) == []
  {
  }

  lemma NothingPassed(text: string)
    ensures BreaksPassed(text, {}, 0)
  {
  }
}
