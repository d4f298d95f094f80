/** The markup table's regular expressions as data, and why every row of it meets what the
    span parser needs: what a match can start and end with follows from the expression. */
module MarkupTable {
  import opened Wrappers
  import opened SpanText
  import opened SpanParser

  datatype Regex =
    | Empty
    | Lit(c: char)
    | Class(within: char -> bool)
    | Cat(x: Regex, y: Regex)
    | Alt(x: Regex, y: Regex)
    | Star(x: Regex)

  ghost predicate Matches(r: Regex, s: string)
    decreases r, |s|
  {
    match r
    case Empty => s == ""
    case Lit(c) => s == [c]
    case Class(within) => |s| == 1 && within(s[0])
    case Cat(x, y) => exists k :: 0 <= k <= |s| && Matches(x, s[..k]) && Matches(y, s[k..])
    case Alt(x, y) => Matches(x, s) || Matches(y, s)
    case Star(x) => s == "" || exists k :: 0 < k <= |s| && Matches(x, s[..k]) && Matches(r, s[k..])
  }

  function Nullable(r: Regex): bool {
    match r
    case Empty => true
    case Lit(_) => false
    case Class(_) => false
    case Cat(x, y) => Nullable(x) && Nullable(y)
    case Alt(x, y) => Nullable(x) || Nullable(y)
    case Star(_) => true
  }

  /** Whatever matches starts with such a character, unless it is empty. */
  ghost predicate Starts(r: Regex, p: char -> bool) {
    match r
    case Empty => true
    case Lit(c) => p(c)
    case Class(within) => forall c :: within(c) ==> p(c)
    case Cat(x, y) => Starts(x, p) && (Nullable(x) ==> Starts(y, p))
    case Alt(x, y) => Starts(x, p) && Starts(y, p)
    case Star(x) => Starts(x, p)
  }

  ghost predicate Ends(r: Regex, p: char -> bool) {
    match r
    case Empty => true
    case Lit(c) => p(c)
    case Class(within) => forall c :: within(c) ==> p(c)
    case Cat(x, y) => Ends(y, p) && (Nullable(y) ==> Ends(x, p))
    case Alt(x, y) => Ends(x, p) && Ends(y, p)
    case Star(x) => Ends(x, p)
  }

  lemma {:induction false} NullableSound(r: Regex)
    requires Matches(r, "")
    ensures Nullable(r)
  {
    match r
    case Cat(x, y) =>
      var k :| 0 <= k <= 0 && Matches(x, ""[..k]) && Matches(y, ""[k..]);
      assert ""[..k] == "" && ""[k..] == "";
      NullableSound(x);
      NullableSound(y);
    case Alt(x, y) => if Matches(x, "") { NullableSound(x); } else { NullableSound(y); }
    case _ =>
  }

  lemma {:induction false} StartsSound(r: Regex, s: string, p: char -> bool)
    requires Matches(r, s) && Starts(r, p) && s != ""
    ensures p(s[0])
    decreases r, |s|
  {
    match r
    case Cat(x, y) =>
      var k :| 0 <= k <= |s| && Matches(x, s[..k]) && Matches(y, s[k..]);
      if k > 0 {
        StartsSound(x, s[..k], p);
      } else {
        assert s[..k] == "" && s[k..] == s;
        NullableSound(x);
        StartsSound(y, s, p);
      }
    case Alt(x, y) => if Matches(x, s) { StartsSound(x, s, p); } else { StartsSound(y, s, p); }
    case Star(x) =>
      var k :| 0 < k <= |s| && Matches(x, s[..k]) && Matches(r, s[k..]);
      StartsSound(x, s[..k], p);
    case _ =>
  }

  lemma {:induction false} EndsSound(r: Regex, s: string, p: char -> bool)
    requires Matches(r, s) && Ends(r, p) && s != ""
    ensures p(s[|s| - 1])
    decreases r, |s|
  {
    match r
    case Cat(x, y) =>
      var k :| 0 <= k <= |s| && Matches(x, s[..k]) && Matches(y, s[k..]);
      if k < |s| {
        EndsSound(y, s[k..], p);
      } else {
        assert s[k..] == "" && s[..k] == s;
        NullableSound(y);
        EndsSound(x, s, p);
      }
    case Alt(x, y) => if Matches(x, s) { EndsSound(x, s, p); } else { EndsSound(y, s, p); }
    case Star(x) =>
      var k :| 0 < k <= |s| && Matches(x, s[..k]) && Matches(r, s[k..]);
      if k < |s| { EndsSound(r, s[k..], p); } else { assert s[..k] == s; EndsSound(x, s, p); }
    case _ =>
  }

  // ----- rows -----

  datatype Row = Row(single: bool, noSpans: bool, noJump: bool, open: Regex, close: Option<Regex>)

  /** Whatever the search finds is a match at or after the cursor. */
  ghost predicate Finds(f: (string, nat) -> Option<Range>, r: Regex, text: string) {
    forall pos: nat :: pos <= |text| ==> FoundMatches(f(text, pos), r, text, pos)
  }

  ghost predicate FoundMatches(found: Option<Range>, r: Regex, text: string, pos: nat) {
    found.Some? ==>
      pos <= found.value.start <= found.value.end <= |text| && Matches(r, text[found.value.start..found.value.end])
  }

  ghost predicate Implements(m: Markup, row: Row, text: string) {
    && m.single == row.single && m.noSpans == row.noSpans && m.noJump == row.noJump
    && Finds(m.startAt, row.open, text)
    && match row.close
       case None => forall pos: nat :: m.endAt(text, pos).None?
       case Some(close) => Finds(m.endAt, close, text)
  }

  function NotW(): char -> bool {
    (c: char) => c != 'W'
  }

  function NotInBreak(): char -> bool {
    (c: char) => c !in BREAK
  }

  ghost predicate RowOk(row: Row) {
    && (row.single ==> row.noJump && Ends(row.open, NotInBreak()))
    && !Nullable(row.open) && Starts(row.open, NotW())
    && (row.close.Some? ==> !Nullable(row.close.value) && Ends(row.close.value, NotInBreak()))
  }

  lemma MatchNotEmpty(r: Regex, s: string)
    requires Matches(r, s) && !Nullable(r)
    ensures s != ""
  {
    if s == "" { NullableSound(r); }
  }

  lemma RowIsPlain(m: Markup, row: Row, text: string)
    requires Implements(m, row, text) && RowOk(row)
    ensures PlainRow(m, text)
  {
    hide Matches, Nullable, Starts, Ends;
    forall pos: nat | pos <= |text| ensures PlainMatches(m, text, pos) {
      var start, end := m.startAt(text, pos), m.endAt(text, pos);
      assert FoundMatches(start, row.open, text, pos);
      if start.Some? {
        var s := text[start.value.start..start.value.end];
        MatchNotEmpty(row.open, s);
        StartsSound(row.open, s, NotW());
        if row.single { EndsSound(row.open, s, NotInBreak()); }
      }
      if end.Some? {
        assert FoundMatches(end, row.close.value, text, pos);
        var s := text[end.value.start..end.value.end];
        MatchNotEmpty(row.close.value, s);
        EndsSound(row.close.value, s, NotInBreak());
      }
    }
  }

  // ----- building expressions -----

  function Str(s: string): Regex {
    if s == "" then Empty else Cat(Lit(s[0]), Str(s[1..]))
  }

  function Words(ws: seq<string>): Regex {
    if |ws| <= 1 then (if ws == [] then Empty else Str(ws[0])) else Alt(Str(ws[0]), Words(ws[1..]))
  }

  function Plus(r: Regex): Regex {
    Cat(r, Star(r))
  }

  function Opt(r: Regex): Regex {
    Alt(r, Empty)
  }

  lemma {:induction false} StrFacts(s: string, p: char -> bool, q: char -> bool)
    requires s != ""
    ensures !Nullable(Str(s))
    ensures p(s[0]) ==> Starts(Str(s), p)
    ensures q(s[|s| - 1]) ==> Ends(Str(s), q)
  {
    if |s| == 1 {
      assert s[1..] == "";
    } else {
      StrFacts(s[1..], p, q);
    }
  }

  lemma StrOk(s: string)
    requires s != ""
    ensures !Nullable(Str(s))
    ensures s[0] != 'W' ==> Starts(Str(s), NotW())
    ensures s[|s| - 1] !in BREAK ==> Ends(Str(s), NotInBreak())
  {
    StrFacts(s, NotW(), NotInBreak());
  }

  // ----- the table -----

  function Block(noSpans: bool, open: Regex, close: Regex): Row {
    Row(false, noSpans, false, open, Some(close))
  }

  function Single(open: Regex): Row {
    Row(true, true, true, open, None)
  }

  function Link(): Row {
    Block(false, Str("[["), Str("]]"))
  }

  function External(): Row {
    Block(false, Str("["), Str("]"))
  }

  function Template(): Row {
    Block(true, Str("{{"), Str("}}"))
  }

  function NowikiTag(): Row {
    Single(Cat(Str("<nowiki"), Cat(Star(Lit(' ')), Str("/>"))))
  }

  function VerbatimWords(): Regex {
    Words(["math", "timeline", "nowiki"])
  }

  function Verbatim(): Row {
    Block(true, Cat(Lit('<'), Cat(VerbatimWords(), Cat(Star(Class((c: char) => c != '>')), Lit('>')))),
          Cat(Str("</"), Cat(VerbatimWords(), Lit('>'))))
  }

  function TagWords(): Regex {
    Words([
      "ref", "h1", "h2", "h3", "h4", "h5", "h6", "p", "br", "hr", "!--", "abbr", "b", "bdi", "bdo", "blockquote",
          "cite",
      "code", "data", "del", "dfn", "em", "i", "ins", "kbd", "mark", "pre", "q", "ruby", "rt", "rp", "s", "samp",
          "small",
      "strong", "sub", "sup", "time", "u", "var", "wbr", "dl", "dt", "dd", "ol", "ul", "li", "div", "span", "table",
          "tr",
      "td", "th", "caption"])
  }

  function Tag(): Row {
    Block(true, Cat(Lit('<'), Cat(Opt(Lit('/')), TagWords())), Lit('>'))
  }

  function Heading(): Row {
    Single(Alt(Plus(Lit('=')), Lit(';')))
  }

  function ListMark(): Regex {
    Class((c: char) => c == '\\' || c == '*' || c == '#' || c == ':')
  }

  function Definition(): Row {
    Block(true, Cat(Star(ListMark()), Lit(';')), Str("\\:"))
  }

  function Bullet(): Row {
    Single(Plus(ListMark()))
  }

  function Rule(): Row {
    Single(Cat(Str("----"), Star(Lit('-'))))
  }

  function Table(): Row {
    Block(true, Str("{|"), Str("|}"))
  }

  function NamedEntities(): Regex {
    Words(["&nbsp;", "&euro;", "&quot;", "&amp;", "&lt;", "&gt;", "&nbsp;"])
  }

  /** A digit is any decimal digit, of any script. */
  function EntityBody(digit: char -> bool): Regex {
    var letter := Class((c: char) => 'a' <= c <= 'z' || digit(c));
    var hex := Class((c: char) => 'a' <= c <= 'f' || digit(c));
    Alt(Plus(letter), Alt(Cat(Lit('#'), Plus(Class(digit))), Cat(Str("#x"), Plus(hex))))
  }

  function Entity(digit: char -> bool): Row {
    Single(Alt(NamedEntities(), Cat(Lit('&'), Cat(EntityBody(digit), Lit(';')))))
  }

  function MagicWords(): Regex {
    Words([
      "NOTOC", "FORCETOC", "TOC", "NOEDITSECTION", "NEWSECTIONLINK", "NONEWSECTIONLINK", "NOGALLERY", "HIDDENCAT",
      "NOCONTENTCONVERT", "NOCC", "NOTITLECONVERT", "NOTC", "START", "END", "INDEX", "NOINDEX", "STATICREDIRECT",
      "DISAMBIG"])
  }

  function Magic(): Row {
    Single(Cat(Str("__"), Cat(MagicWords(), Str("__"))))
  }

  function Quotes(): Row {
    Single(Cat(Lit('\''), Plus(Lit('\''))))
  }

  /** Every row but the one for line breaks, in the table's order. */
  function Rows(digit: char -> bool): seq<Row> {
    [Link(), External(), Template(), NowikiTag(), Verbatim(), Tag(), Heading(), Definition(), Bullet(), Rule(), Table(),
     Entity(digit), Magic(), Quotes()]
  }

  // ----- what the rows match -----

  /** A literal matches itself alone. */
  lemma {:induction false} StrExactly(lit: string, s: string)
    ensures Matches(Str(lit), s) <==> s == lit
  {
    if lit != "" {
      var rest := Str(lit[1..]);
      if Matches(Str(lit), s) {
        var k :| 0 <= k <= |s| && Matches(Lit(lit[0]), s[..k]) && Matches(rest, s[k..]);
        StrExactly(lit[1..], s[k..]);
        assert s == s[..k] + s[k..] == [lit[0]] + lit[1..];
      }
      if s == lit {
        assert s[..1] == [lit[0]];
        StrExactly(lit[1..], s[1..]);
        assert Matches(Lit(lit[0]), s[..1]) && Matches(rest, s[1..]);
      }
    }
  }

  /** A list of words matches just these. */
  lemma {:induction false} WordsExactly(ws: seq<string>, s: string)
    requires ws != []
    ensures Matches(Words(ws), s) <==> s in ws
  {
    StrExactly(ws[0], s);
    if |ws| > 1 {
      WordsExactly(ws[1..], s);
      assert ws == [ws[0]] + ws[1..];
    } else {
      assert ws == [ws[0]];
    }
  }

  ghost predicate AllOf(s: string, c: char) {
    forall i :: 0 <= i < |s| ==> s[i] == c
  }

  /** A repeated character matches the runs of it. */
  lemma {:induction false} StarExactly(c: char, s: string)
    ensures Matches(Star(Lit(c)), s) <==> AllOf(s, c)
    decreases |s|
  {
    if s != "" {
      if Matches(Star(Lit(c)), s) {
        var k :| 0 < k <= |s| && Matches(Lit(c), s[..k]) && Matches(Star(Lit(c)), s[k..]);
        StarExactly(c, s[k..]);
        assert s == [c] + s[k..] && k == |s[..k]| == 1;
        assert forall i :: 1 <= i < |s| ==> s[i] == s[k..][i - 1];
      }
      if AllOf(s, c) {
        assert AllOf(s[1..], c) by {
          assert forall i :: 0 <= i < |s[1..]| ==> s[1..][i] == s[i + 1];
        }
        StarExactly(c, s[1..]);
        assert s[..1] == [c];
        assert Matches(Lit(c), s[..1]) && Matches(Star(Lit(c)), s[1..]);
      }
    }
  }

  lemma PlusExactly(c: char, s: string)
    ensures Matches(Plus(Lit(c)), s) <==> s != "" && AllOf(s, c)
  {
    if Matches(Plus(Lit(c)), s) {
      var k :| 0 <= k <= |s| && Matches(Lit(c), s[..k]) && Matches(Star(Lit(c)), s[k..]);
      StarExactly(c, s[k..]);
      assert s == [c] + s[k..];
      assert forall i :: 1 <= i < |s| ==> s[i] == s[k..][i - 1];
    }
    if s != "" && AllOf(s, c) {
      StarExactly(c, s[1..]);
      assert AllOf(s[1..], c) by {
        assert forall i :: 0 <= i < |s[1..]| ==> s[1..][i] == s[i + 1];
      }
      assert s[..1] == [c];
      assert Matches(Lit(c), s[..1]) && Matches(Star(Lit(c)), s[1..]);
    }
  }

  /** Links, external links, templates and tables are what stands between these; the parser
      opens a span in front of the first two only. */
  lemma LiteralRows(s: string)
    ensures Matches(Link().open, s) <==> s == "[["
    ensures Matches(Link().close.value, s) <==> s == "]]"
    ensures Matches(External().open, s) <==> s == "["
    ensures Matches(External().close.value, s) <==> s == "]"
    ensures Matches(Template().open, s) <==> s == "{{"
    ensures Matches(Template().close.value, s) <==> s == "}}"
    ensures Matches(Table().open, s) <==> s == "{|"
    ensures Matches(Table().close.value, s) <==> s == "|}"
    ensures !Link().noSpans && !External().noSpans && Template().noSpans && Table().noSpans
  {
    hide Str, Matches;
    StrExactly("[[", s);
    StrExactly("]]", s);
    StrExactly("[", s);
    StrExactly("]", s);
    StrExactly("{{", s);
    StrExactly("}}", s);
    StrExactly("{|", s);
    StrExactly("|}", s);
  }

  /** Bold and italics are runs of two or more apostrophes, a rule is four or more dashes. */
  lemma RunRows(s: string)
    ensures Matches(Quotes().open, s) <==> |s| >= 2 && AllOf(s, '\'')
    ensures Matches(Rule().open, s) <==> |s| >= 4 && AllOf(s, '-')
  {
    QuoteRuns(s);
    RuleRuns(s);
    hide Matches;
  }

  lemma QuoteRuns(s: string)
    ensures Matches(Quotes().open, s) <==> |s| >= 2 && AllOf(s, '\'')
  {
    var quotes := Plus(Lit('\''));
    forall k | 0 <= k <= |s| ensures Matches(quotes, s[k..]) <==> s[k..] != "" && AllOf(s[k..], '\'') {
      PlusExactly('\'', s[k..]);
    }
    hide AllOf;
    if Matches(Quotes().open, s) {
      var k :| 0 <= k <= |s| && Matches(Lit('\''), s[..k]) && Matches(quotes, s[k..]);
      RunSplits(s, k, '\'');
    }
    if |s| >= 2 && AllOf(s, '\'') {
      RunSplits(s, 1, '\'');
      assert s[..1] == ['\''] && Matches(Lit('\''), s[..1]) && Matches(quotes, s[1..]);
    }
  }

  lemma RunSplits(s: string, k: nat, c: char)
    requires k <= |s|
    ensures AllOf(s, c) <==> AllOf(s[..k], c) && AllOf(s[k..], c)
    ensures |s| > 0 && AllOf(s, c) ==> s[..1] == [c]
    ensures k == 1 && s[..k] == [c] ==> AllOf(s[..k], c)
  {
    assert forall i :: k <= i < |s| ==> s[i] == s[k..][i - k];
    assert forall i :: 0 <= i < k ==> s[i] == s[..k][i];
    if AllOf(s, c) {
      assert forall i :: 0 <= i < |s[k..]| ==> s[k..][i] == s[k + i];
    }
  }

  lemma RuleRuns(s: string)
    ensures Matches(Rule().open, s) <==> |s| >= 4 && AllOf(s, '-')
  {
    var first, rest := Str("----"), Star(Lit('-'));
    forall k | 0 <= k <= |s| ensures Matches(first, s[..k]) <==> s[..k] == "----" {
      StrExactly("----", s[..k]);
    }
    forall k | 0 <= k <= |s| ensures Matches(rest, s[k..]) <==> AllOf(s[k..], '-') {
      StarExactly('-', s[k..]);
    }
    FourDashes();
    hide AllOf, Str;
    if Matches(Rule().open, s) {
      var k :| 0 <= k <= |s| && Matches(first, s[..k]) && Matches(rest, s[k..]);
      RunSplits(s, k, '-');
    }
    if |s| >= 4 && AllOf(s, '-') {
      RunSplits(s, 4, '-');
      FourOf(s[..4]);
      assert Matches(first, s[..4]) && Matches(rest, s[4..]);
    }
  }

  lemma FourDashes()
    ensures AllOf("----", '-')
  {
  }

  lemma FourOf(s: string)
    requires |s| == 4 && AllOf(s, '-')
    ensures s == "----"
  {
  }

  lemma LinkOk()
    ensures RowOk(Link()) && RowOk(External())
  {
    hide Str;
    StrOk("[[");
    StrOk("]]");
    StrOk("[");
    StrOk("]");
  }

  lemma TemplateOk()
    ensures RowOk(Template()) && RowOk(Table())
  {
    hide Str;
    StrOk("{{");
    StrOk("}}");
    StrOk("{|");
    StrOk("|}");
  }

  lemma NowikiTagOk()
    ensures RowOk(NowikiTag())
  {
    hide Str;
    StrOk("<nowiki");
    StrOk("/>");
  }

  lemma VerbatimOk()
    ensures RowOk(Verbatim())
  {
    hide Str, VerbatimWords;
    StrOk("</");
  }

  lemma TagOk()
    ensures RowOk(Tag())
  {
    hide TagWords;
  }

  lemma HeadingOk()
    ensures RowOk(Heading())
  {
  }

  lemma QuotesOk()
    ensures RowOk(Quotes())
  {
  }

  lemma DefinitionOk()
    ensures RowOk(Definition())
  {
    hide Str;
    StrOk("\\:");
  }

  lemma BulletOk()
    ensures RowOk(Bullet())
  {
  }

  lemma RuleOk()
    ensures RowOk(Rule())
  {
    hide Str;
    StrOk("----");
  }

  lemma {:induction false} WordsOk(ws: seq<string>)
    requires ws != [] && forall w :: w in ws ==> w != "" && w[0] != 'W' && w[|w| - 1] !in BREAK
    ensures !Nullable(Words(ws)) && Starts(Words(ws), NotW()) && Ends(Words(ws), NotInBreak())
  {
    hide Str;
    assert ws[0] in ws;
    StrOk(ws[0]);
    if |ws| > 1 {
      assert forall w :: w in ws[1..] ==> w in ws;
      WordsOk(ws[1..]);
    }
  }

  lemma NamedEntitiesOk()
    ensures !Nullable(NamedEntities()) && Starts(NamedEntities(), NotW()) && Ends(NamedEntities(), NotInBreak())
  {
    WordsOk(["&nbsp;", "&euro;", "&quot;", "&amp;", "&lt;", "&gt;", "&nbsp;"]);
    hide Words, Starts, Ends;
  }

  lemma EntityOk(digit: char -> bool)
    ensures RowOk(Entity(digit))
  {
    hide NamedEntities, EntityBody;
    NamedEntitiesOk();
    var tail := Cat(EntityBody(digit), Lit(';'));
    assert Ends(tail, NotInBreak()) && !Nullable(tail);
    assert Ends(Cat(Lit('&'), tail), NotInBreak()) && Starts(Cat(Lit('&'), tail), NotW())
        && !Nullable(Cat(Lit('&'), tail));
  }

  lemma MagicOk()
    ensures RowOk(Magic())
  {
    hide Str, MagicWords;
    StrOk("__");
  }

  lemma RowsOk(digit: char -> bool)
    ensures forall row :: row in Rows(digit) ==> RowOk(row)
  {
    hide RowOk, Link, External, Template, NowikiTag, Verbatim, Tag, Heading, Definition, Bullet, Rule, Table, Entity,
      Magic, Quotes;
    LinkOk();
    TemplateOk();
    NowikiTagOk();
    VerbatimOk();
    TagOk();
    HeadingOk();
    QuotesOk();
    DefinitionOk();
    BulletOk();
    RuleOk();
    EntityOk(digit);
    MagicOk();
  }

  /** Any sound search with the table's expressions meets all that the parser needs. */
  lemma SourceTableOk(table: seq<Markup>, text: string, digit: char -> bool)
    requires BREAK_ROW in table
    requires forall m :: m in table && m != BREAK_ROW ==> exists row :: row in Rows(digit) && Implements(m, row, text)
    ensures TableOk(table, text)
  {
    hide RowOk, Implements, PlainRow, TableOk, Rows;
    RowsOk(digit);
    forall m | m in table && m != BREAK_ROW ensures PlainRow(m, text) {
      var row :| row in Rows(digit) && Implements(m, row, text);
      RowIsPlain(m, row, text);
    }
    PlainTableOk(table, text);
  }
}
