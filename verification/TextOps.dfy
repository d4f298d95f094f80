/** The text operations the attribution algorithm is parametric in, and the space-joined
    sentence form it stores between its sentence level and its token level. */
module TextOps {
  import opened Seqs

  /** Lowercasing, trimming, the three splitters and the MD5 digest, as given functions. */
  datatype TextOps = TextOps(
    lower: string -> string,
    trim: string -> string,
    splitParagraphs: string -> seq<string>,
    splitSentences: string -> seq<string>,
    splitTokens: string -> seq<string>,
    digest: string -> string)

  /** The pieces that are not blank, trimmed. */
  function NonBlank(ops: TextOps, raws: seq<string>): seq<string> {
    if raws == [] then []
    else
      var t := ops.trim(raws[0]);
      (if t == "" then [] else [t]) + NonBlank(ops, raws[1..])
  }

  function TokenLists(ops: TextOps, sentences: seq<string>): seq<seq<string>> {
    if sentences == [] then [] else [ops.splitTokens(sentences[0])] + TokenLists(ops, sentences[1..])
  }

  function Paragraphs(ops: TextOps, text: string): seq<string> {
    NonBlank(ops, ops.splitParagraphs(text))
  }

  /** The token list of each non-blank sentence of a paragraph. */
  function Sentences(ops: TextOps, paragraph: string): seq<seq<string>> {
    TokenLists(ops, NonBlank(ops, ops.splitSentences(paragraph)))
  }

  function Flatten(ops: TextOps, paragraphs: seq<string>): seq<string> {
    if paragraphs == [] then []
    else Concat(Sentences(ops, paragraphs[0])) + Flatten(ops, paragraphs[1..])
  }

  /** The flattened paragraph, sentence, token split of a text. */
  function Tokens(ops: TextOps, text: string): seq<string> {
    Flatten(ops, Paragraphs(ops, text))
  }

  function Join(tokens: seq<string>): string {
    if tokens == [] then ""
    else if |tokens| == 1 then tokens[0]
    else tokens[0] + " " + Join(tokens[1..])
  }

  /** Splitting on single spaces; like the original, the empty text has one empty part. */
  function SplitSpace(s: string): (parts: seq<string>)
    ensures parts != []
  {
    if s == "" then [""]
    else
      var rest := SplitSpace(s[1..]);
      if s[0] == ' ' then [""] + rest else [[s[0]] + rest[0]] + rest[1..]
  }

  /** What the tokenizer promises of the tokens of a non-blank sentence. */
  ghost predicate SpaceFree(tokens: seq<string>) {
    tokens != [] && forall i :: 0 <= i < |tokens| ==> ' ' !in tokens[i]
  }

  lemma {:induction false} SplitWord(word: string, s: string)
    requires ' ' !in word
    ensures SplitSpace(word + " " + s) == [word] + SplitSpace(s)
    ensures SplitSpace(word) == [word]
  {
    if word == "" {
      assert (word + " " + s)[1..] == s;
    } else {
      SplitWord(word[1..], s);
      assert (word + " " + s)[1..] == word[1..] + " " + s;
      assert word == [word[0]] + word[1..];
    }
  }

  /** Rejoining and resplitting a sentence gives back its tokens. */
  lemma {:induction false} SplitJoin(tokens: seq<string>)
    requires SpaceFree(tokens)
    ensures SplitSpace(Join(tokens)) == tokens
  {
    if |tokens| == 1 {
      SplitWord(tokens[0], "");
      assert tokens == [tokens[0]];
    } else {
      SplitWord(tokens[0], Join(tokens[1..]));
      SplitJoin(tokens[1..]);
      assert tokens == [tokens[0]] + tokens[1..];
    }
  }

  lemma {:induction false} FlattenAppend(ops: TextOps, ps: seq<string>, p: string)
    ensures Flatten(ops, ps + [p]) == Flatten(ops, ps) + Concat(Sentences(ops, p))
  {
    if ps == [] {
    } else {
      assert (ps + [p])[1..] == ps[1..] + [p];
      FlattenAppend(ops, ps[1..], p);
    }
  }
}
