/** The sentence decoders: from the pipeline's output back to rows. The
    tokenising decoders build one block of text per sentence, one
    tab-separated line per token, ended by a blank line; the parse decoder
    extends the caller's rows in place with the dependency fields. */
module Decoders {
  import opened PyStr
  import opened PyInt
  import opened PyRepr
  import opened Xtsv
  import opened StanzaDoc
  import opened WsAfterField

  /** The four `_decode_sentence_tok*` variants. */
  datatype TokenisingDecoder = DecodeTok | DecodeTokPos | DecodeTokLem | DecodeTokParse

  /** `str(v or '_')`: a missing or empty tag becomes `_`, any other value
      passes through unchanged, and the result is never empty. */
  function OrPlaceholder(v: Option<string>): (r: string)
    ensures r != ""
    ensures r == "_" <==> v.None? || v.value == "" || v.value == "_"
    ensures v.Some? && v.value != "" ==> r == v.value
  {
    if v.None? || v.value == "" then "_" else v.value
  }

  /** The number of fields each variant writes per token. */
  function Width(kind: TokenisingDecoder): nat {
    match kind
    case DecodeTok => 2
    case DecodeTokPos => 5
    case DecodeTokLem => 6
    case DecodeTokParse => 9
  }

  /** The fields written for one token, in target-field order: `form`,
      `wsafter`, then `feats`, `upostag`, `xpostag`, then `lemma`, then
      `id`, `deprel`, `head`, as far as the variant goes. */
  function RowFields(kind: TokenisingDecoder, token: Token, wsafter: string): (r: Row)
    ensures |r| == Width(kind)
    ensures r[0] == token.text && r[1] == wsafter
    ensures kind != DecodeTok ==>
      r[2] == OrPlaceholder(token.word.feats) && r[3] == token.word.upos && r[4] == OrPlaceholder(token.word.xpos)
    ensures kind == DecodeTokLem || kind == DecodeTokParse ==> r[5] == token.word.lemmaForm
    ensures kind == DecodeTokParse ==>
      r[6] == IntToString(token.word.id) && r[7] == token.word.deprel && r[8] == IntToString(token.word.head)
  {
    var w := token.word;
    var tok := [token.text, wsafter];
    var pos := tok + [OrPlaceholder(w.feats), w.upos, OrPlaceholder(w.xpos)];
    var lem := pos + [w.lemmaForm];
    match kind
    case DecodeTok => tok
    case DecodeTokPos => pos
    case DecodeTokLem => lem
    case DecodeTokParse => lem + [IntToString(w.id), w.deprel, IntToString(w.head)]
  }

  /** The richer variants only add columns: each row starts with the row
      the poorer variant writes for the same token. */
  lemma RowFieldsExtend(token: Token, wsafter: string)
    ensures RowFields(DecodeTokPos, token, wsafter)[..2] == RowFields(DecodeTok, token, wsafter)
    ensures RowFields(DecodeTokLem, token, wsafter)[..5] == RowFields(DecodeTokPos, token, wsafter)
    ensures RowFields(DecodeTokParse, token, wsafter)[..6] == RowFields(DecodeTokLem, token, wsafter)
  {
  }

  /** The tab-joined lines of a block. */
  function Lines(rows: seq<Row>): (r: seq<string>)
    ensures |r| == |rows|
  {
    seq(|rows|, i requires 0 <= i < |rows| => Join("\t", rows[i]))
  }

  /** `'\n'.join(['\t'.join(line) for line in rows] + ['\n'])`: its lines,
      each ended by a newline, and then one more newline, the blank line
      that separates sentences. */
  function Block(rows: seq<Row>): (r: string)
    ensures r == Concat(Terminated(Lines(rows))) + "\n"
  {
    JoinTerminated(Lines(rows));
    Join("\n", Lines(rows) + ["\n"])
  }

  /** Each line followed by its newline. */
  function Terminated(lines: seq<string>): (r: seq<string>)
    ensures |r| == |lines|
  {
    seq(|lines|, i requires 0 <= i < |lines| => lines[i] + "\n")
  }

  lemma {:induction false} JoinTerminated(lines: seq<string>)
    ensures Join("\n", lines + ["\n"]) == Concat(Terminated(lines)) + "\n"
  {
    if |lines| > 0 {
      assert (lines + ["\n"])[1..] == lines[1..] + ["\n"];
      JoinTerminated(lines[1..]);
      assert Terminated(lines) == [lines[0] + "\n"] + Terminated(lines[1..]);
    }
  }

  /** A block of at least one row ends with `"\n\n"`. */
  lemma BlockEnding(rows: seq<Row>)
    requires |rows| >= 1
    ensures |Block(rows)| >= 2 && Block(rows)[|Block(rows)| - 2..] == "\n\n"
  {
    var t := Terminated(Lines(rows));
    var n := |t|;
    assert t == t[..n - 1] + [t[n - 1]];
    ConcatAppend(t[..n - 1], [t[n - 1]]);
    assert Concat([t[n - 1]]) == t[n - 1];
  }

  /** The rows the tokenising decoder writes for sentence `k`. */
  function SentenceRows(doc: Document, k: nat, kind: TokenisingDecoder): (r: seq<Row>)
    requires WellFormed(doc) && k < |doc.sentences|
    ensures |r| == |doc.sentences[k].tokens|
  {
    seq(|doc.sentences[k].tokens|, i requires 0 <= i < |doc.sentences[k].tokens| =>
      RowFields(kind, Tok(doc, k, i), WsAfter(doc, k, i)))
  }

  /** A line of the tokenising output splits back into its fields when no
      field holds a tab; the `wsafter` field never does. */
  lemma RowReadsBack(kind: TokenisingDecoder, doc: Document, k: nat, i: nat)
    requires WellFormed(doc) && IsPos(doc, k, i)
    requires forall j :: 0 <= j < Width(kind) && j != 1 ==> '\t' !in SentenceRows(doc, k, kind)[i][j]
    ensures Split('\t', Join("\t", SentenceRows(doc, k, kind)[i])) == SentenceRows(doc, k, kind)[i]
  {
    var row := SentenceRows(doc, k, kind)[i];
    EscapeHasNoTabOrNewline(Gap(doc, k, i));
    assert '\t' !in row[1];
    SplitJoin('\t', row);
  }

  /** The tokenising decoders `_decode_sentence_tok`, `_tok_pos`,
      `_tok_lem` and `_tok_parse`: they first store `wsafter` on every
      token, then write one block per sentence, one row per token in token
      order. */
  method DecodeTokenised(doc: Document, kind: TokenisingDecoder) returns (xtsvSentences: seq<string>)
    requires WellFormed(doc) && DistinctTokens(doc)
    modifies Tokens(doc)
    ensures forall k, i :: IsPos(doc, k, i) ==> Tok(doc, k, i).wsafter == WsAfter(doc, k, i)
    ensures |xtsvSentences| == |doc.sentences|
    ensures forall k :: 0 <= k < |doc.sentences| ==> xtsvSentences[k] == Block(SentenceRows(doc, k, kind))
  {
    CreateWsAfterField(doc);
    xtsvSentences := [];
    for k := 0 to |doc.sentences|
      invariant |xtsvSentences| == k
      invariant forall k, i :: IsPos(doc, k, i) ==> Tok(doc, k, i).wsafter == WsAfter(doc, k, i)
      invariant forall m :: 0 <= m < k ==> xtsvSentences[m] == Block(SentenceRows(doc, m, kind))
    {
      var currentSentence := DecodeSentenceRows(doc, k, kind);
      xtsvSentences := xtsvSentences + [Block(currentSentence)];
    }
  }

  /** The row loop of a tokenising decoder: one row per token, in token
      order, from the `wsafter` stored on each token. */
  method DecodeSentenceRows(doc: Document, k: nat, kind: TokenisingDecoder) returns (currentSentence: seq<Row>)
    requires WellFormed(doc) && k < |doc.sentences|
    requires forall i :: IsPos(doc, k, i) ==> Tok(doc, k, i).wsafter == WsAfter(doc, k, i)
    ensures currentSentence == SentenceRows(doc, k, kind)
  {
    var sentence := doc.sentences[k];
    var rows := SentenceRows(doc, k, kind);
    currentSentence := [];
    for i := 0 to |sentence.tokens|
      invariant currentSentence == rows[..i]
    {
      var token := sentence.tokens[i];
      var wsafter := token.wsafter;
      TokenRow(doc, k, kind, i, token, wsafter);
      currentSentence := currentSentence + [RowFields(kind, token, wsafter)];
    }
    assert rows[..|rows|] == rows;
  }

  /** A token whose stored `wsafter` is the reconstructed one gives the
      specified row. */
  lemma TokenRow(doc: Document, k: nat, kind: TokenisingDecoder, i: nat, token: Token, wsafter: string)
    requires WellFormed(doc) && IsPos(doc, k, i)
    requires token == doc.sentences[k].tokens[i] && wsafter == WsAfter(doc, k, i)
    ensures RowFields(kind, token, wsafter) == SentenceRows(doc, k, kind)[i]
  {
  }

  /** The dependency fields appended for one parse: `[str(id), deprel, str(head)]`. */
  function StanzaFields(w: Word): (r: Row)
    ensures |r| == 3 && r[1] == w.deprel
    ensures IsNumeral(r[0]) && ParseInt(r[0]) == w.id
    ensures IsNumeral(r[2]) && ParseInt(r[2]) == w.head
  {
    IntToStringRoundTrip(w.id);
    IntToStringRoundTrip(w.head);
    [IntToString(w.id), w.deprel, IntToString(w.head)]
  }

  /** The dependency fields of every token of the parsed sentence. */
  function TokenFields(tokens: seq<Token>): (r: seq<Row>)
    ensures |r| == |tokens|
  {
    seq(|tokens|, i requires 0 <= i < |tokens| => StanzaFields(tokens[i].word))
  }

  /** `for x, line in zip(xs, sen): line += fields(x)`: the caller's rows
      are extended in place. */
  method ExtendRows(sen: array<Row>, extra: seq<Row>)
    modifies sen
    ensures sen[..] == ZipAppend(old(sen[..]), extra)
  {
    var i := 0;
    while i < sen.Length && i < |extra|
      invariant 0 <= i <= sen.Length && i <= |extra|
      invariant forall j :: 0 <= j < i ==> sen[j] == old(sen[j]) + extra[j]
      invariant forall j :: i <= j < sen.Length ==> sen[j] == old(sen[j])
    {
      sen[i] := sen[i] + extra[i];
      i := i + 1;
    }
    ZipAppendEq(old(sen[..]), extra, sen[..]);
  }

  /** `_decode_parse`: appends `[str(id), deprel, str(head)]` to each row
      paired with a token of the first sentence, and returns the same row
      buffer. A document without sentences raises IndexError before any
      row changes. */
  method DecodeParse(document: Document, sen: array<Row>) returns (r: Result<array<Row>>)
    modifies sen
    ensures |document.sentences| == 0 ==> r == Err(IndexError) && sen[..] == old(sen[..])
    ensures |document.sentences| > 0 ==>
      r == Ok(sen) && sen[..] == ZipAppend(old(sen[..]), TokenFields(document.sentences[0].tokens))
  {
    if |document.sentences| == 0 {
      return Err(IndexError);
    }
    ExtendRows(sen, TokenFields(document.sentences[0].tokens));
    return Ok(sen);
  }
}
