/** The NLP pipeline's output as the adapters see it. A document holds its
    text and its sentences; a sentence its own text and its tokens; a token
    its surface text, its character span in the document text and the
    analysis of its (first) word. The pipeline itself is not part of this
    model: its output is given data. Tokens are objects because the
    whitespace reconstructor stores a new `wsafter` attribute on them. */
module StanzaDoc {
  import opened Xtsv

  /** One word analysis (`token.words[0]`, or a word dictionary of
      `to_dict()`). `xpos` and `feats` may be absent (None) or empty. */
  datatype Word = Word(
    id: int,
    upos: string,
    xpos: Option<string>,
    feats: Option<string>,
    lemmaForm: string,
    deprel: string,
    head: int)

  class Token {
    const text: string
    const startChar: nat
    const endChar: nat
    const word: Word
    /** Set by the whitespace reconstructor; stanza tokens start without it. */
    var wsafter: string

    constructor (text: string, startChar: nat, endChar: nat, word: Word)
      ensures this.text == text && this.startChar == startChar && this.endChar == endChar
      ensures this.word == word && wsafter == ""
    {
      this.text := text;
      this.startChar := startChar;
      this.endChar := endChar;
      this.word := word;
      wsafter := "";
    }
  }

  datatype Sentence = Sentence(text: string, tokens: seq<Token>)

  datatype Document = Document(text: string, sentences: seq<Sentence>)

  /** One pre-tagged word handed to the dependency parser, the dictionary
      `{'id', 'text', 'lemma', 'upos', 'feats'}`. */
  datatype Entry = Entry(id: nat, text: string, lemmaForm: string, upos: string, feats: string)

  /** Every sentence the pipeline returns has at least one token. */
  predicate WellFormed(doc: Document) {
    forall k :: 0 <= k < |doc.sentences| ==> |doc.sentences[k].tokens| > 0
  }

  predicate IsPos(doc: Document, k: int, i: int) {
    0 <= k < |doc.sentences| && 0 <= i < |doc.sentences[k].tokens|
  }

  function Tok(doc: Document, k: int, i: int): Token
    requires IsPos(doc, k, i)
  {
    doc.sentences[k].tokens[i]
  }

  /** The token objects of a document. */
  ghost function Tokens(doc: Document): set<Token> {
    set k, i | 0 <= k < |doc.sentences| && 0 <= i < |doc.sentences[k].tokens| :: doc.sentences[k].tokens[i]
  }

  /** No token object occurs at two positions: the pipeline builds each
      token separately. */
  ghost predicate DistinctTokens(doc: Document) {
    forall k1, i1, k2, i2 ::
      IsPos(doc, k1, i1) && IsPos(doc, k2, i2) && Tok(doc, k1, i1) == Tok(doc, k2, i2) ==> k1 == k2 && i1 == i2
  }
}
