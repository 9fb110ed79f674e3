/** The whitespace reconstructor `_create_wsafter_field`. The pipeline
    reports where each token starts and ends but not the text between
    tokens; the reconstructor recovers that gap from the offsets, writes it
    as an escaped literal between double quotes, and stores it on the token.

    Interior tokens take their gap from the sentence text, with offsets made
    relative to the sentence's first token. The last token of a sentence has
    to look past the sentence, so it reads the document text: up to the
    first token of the next sentence, or to the end of the document. */
module WsAfterField {
  import opened PyStr
  import opened PyRepr
  import opened StanzaDoc

  /** The raw text taken as following token `i` of sentence `k`, exactly as
      the slices of the Python code select it. */
  function Gap(doc: Document, k: nat, i: nat): (r: string)
    requires WellFormed(doc) && IsPos(doc, k, i)
    ensures i < |doc.sentences[k].tokens| - 1 ==> |r| <= |doc.sentences[k].text|
    ensures i == |doc.sentences[k].tokens| - 1 ==> |r| <= |doc.text|
  {
    var sentence := doc.sentences[k];
    var cur := sentence.tokens[i];
    if i < |sentence.tokens| - 1 then
      var startId := sentence.tokens[0].startChar;
      PySlice(sentence.text, cur.endChar - startId, sentence.tokens[i + 1].startChar - startId)
    else if k != |doc.sentences| - 1 then
      PySlice(doc.text, cur.endChar, doc.sentences[k + 1].tokens[0].startChar)
    else
      PySliceFrom(doc.text, cur.endChar)
  }

  /** The `wsafter` value of a token: the escaped gap in double quotes. */
  function WsAfter(doc: Document, k: nat, i: nat): (r: string)
    requires WellFormed(doc) && IsPos(doc, k, i)
    ensures |r| >= |Gap(doc, k, i)| + 2
  {
    "\"" + Escape(Gap(doc, k, i)) + "\""
  }

  /** Every value starts and ends with a double quote, even an empty gap. */
  lemma WsAfterQuoted(doc: Document, k: nat, i: nat)
    requires WellFormed(doc) && IsPos(doc, k, i)
    ensures |WsAfter(doc, k, i)| >= 2
    ensures WsAfter(doc, k, i)[0] == '"' && WsAfter(doc, k, i)[|WsAfter(doc, k, i)| - 1] == '"'
    ensures Gap(doc, k, i) == "" ==> WsAfter(doc, k, i) == "\"\""
  {
  }

  /** The body of the literal, without its quotes. */
  function Unquote(s: string): string {
    if |s| >= 2 then s[1..|s| - 1] else s
  }

  /** Reading a `wsafter` value back gives the gap it was made from. */
  lemma WsAfterReadsBack(doc: Document, k: nat, i: nat)
    requires WellFormed(doc) && IsPos(doc, k, i)
    ensures Unescape(Unquote(WsAfter(doc, k, i))) == Gap(doc, k, i)
  {
    var w := WsAfter(doc, k, i);
    assert Unquote(w) == Escape(Gap(doc, k, i));
    EscapeRoundTrip(Gap(doc, k, i));
  }

  /** The last token of every sentence, a one-token sentence's only token
      included, takes its gap from the document text: up to the first token
      of the next sentence, or to the end of the document in the last
      sentence. */
  lemma LastTokenGap(doc: Document, k: nat, i: nat)
    requires WellFormed(doc) && IsPos(doc, k, i) && i == |doc.sentences[k].tokens| - 1
    ensures k < |doc.sentences| - 1 ==>
      Gap(doc, k, i) == PySlice(doc.text, Tok(doc, k, i).endChar, Tok(doc, k + 1, 0).startChar)
    ensures k == |doc.sentences| - 1 ==> Gap(doc, k, i) == PySliceFrom(doc.text, Tok(doc, k, i).endChar)
  {
  }

  /** The token at a position belongs to the document's footprint and
      occurs at no other position. */
  lemma TokenAt(doc: Document, k: nat, i: nat)
    requires DistinctTokens(doc) && IsPos(doc, k, i)
    ensures Tok(doc, k, i) in Tokens(doc)
    ensures forall k2, j :: IsPos(doc, k2, j) && Tok(doc, k2, j) == Tok(doc, k, i) ==> k2 == k && j == i
  {
  }

  /** The gap of an interior token, in the terms the loop computes it. */
  lemma InteriorGap(doc: Document, k: nat, i: nat)
    requires WellFormed(doc) && IsPos(doc, k, i) && i < |doc.sentences[k].tokens| - 1
    ensures Gap(doc, k, i) == PySlice(doc.sentences[k].text, Tok(doc, k, i).endChar - Tok(doc, k, 0).startChar,
                                      Tok(doc, k, i + 1).startChar - Tok(doc, k, 0).startChar)
  {
  }

  /** Stores the value on one token; no other token of the document
      changes, since no token object occurs at two positions. */
  method StoreWsAfter(doc: Document, k: nat, i: nat, value: string)
    requires DistinctTokens(doc) && IsPos(doc, k, i)
    modifies Tok(doc, k, i)
    ensures Tok(doc, k, i).wsafter == value
    ensures forall k2, j :: IsPos(doc, k2, j) && (k2 != k || j != i) ==>
      Tok(doc, k2, j).wsafter == old(Tok(doc, k2, j).wsafter)
  {
    TokenAt(doc, k, i);
    Tok(doc, k, i).wsafter := value;
  }

  /** One step of the `for` loop: the gap after interior token `i` is cut
      from the sentence text, escaped, quoted and stored. */
  method StoreInteriorWsAfter(doc: Document, k: nat, i: nat, startId: int)
    requires WellFormed(doc) && DistinctTokens(doc) && IsPos(doc, k, i) && i < |doc.sentences[k].tokens| - 1
    requires startId == Tok(doc, k, 0).startChar
    modifies Tok(doc, k, i)
    ensures Tok(doc, k, i).wsafter == WsAfter(doc, k, i)
    ensures forall k2, j :: IsPos(doc, k2, j) && (k2 != k || j != i) ==>
      Tok(doc, k2, j).wsafter == old(Tok(doc, k2, j).wsafter)
  {
    var sentence := doc.sentences[k];
    var currentToken, nextToken := Tok(doc, k, i), Tok(doc, k, i + 1);
    var gap := PySlice(sentence.text, currentToken.endChar - startId, nextToken.startChar - startId);
    InteriorGap(doc, k, i);
    assert gap == Gap(doc, k, i);
    var wsafter := Escape(gap);
    StoreWsAfter(doc, k, i, "\"" + wsafter + "\"");
  }

  /** The `for` loop of one pass: every token of sentence `senIdx` but
      the last gets its value from the sentence text, with offsets made
      relative to the sentence's first token. Tokens of the other
      sentences keep theirs. */
  method CreateInteriorWsAfter(doc: Document, senIdx: nat)
    requires WellFormed(doc) && DistinctTokens(doc) && senIdx < |doc.sentences|
    modifies Tokens(doc)
    ensures forall i :: 0 <= i < |doc.sentences[senIdx].tokens| - 1 ==>
      Tok(doc, senIdx, i).wsafter == WsAfter(doc, senIdx, i)
    ensures forall k, j :: IsPos(doc, k, j) && k != senIdx ==> Tok(doc, k, j).wsafter == old(Tok(doc, k, j).wsafter)
  {
    var sentence := doc.sentences[senIdx];
    var startId := Tok(doc, senIdx, 0).startChar;
    var i := 0;
    while i < |sentence.tokens| - 1
      invariant 0 <= i <= |sentence.tokens| - 1
      invariant forall j :: 0 <= j < i ==> Tok(doc, senIdx, j).wsafter == WsAfter(doc, senIdx, j)
      invariant forall k, j :: IsPos(doc, k, j) && k != senIdx ==> Tok(doc, k, j).wsafter == old(Tok(doc, k, j).wsafter)
    {
      TokenAt(doc, senIdx, i);
      StoreInteriorWsAfter(doc, senIdx, i, startId);
      i := i + 1;
    }
  }

  /** One pass of the outer loop: the interior tokens of sentence `senIdx`,
      then the last one in the `for ... else` branch, from the document
      text. Tokens of the other sentences keep their values. */
  method CreateSentenceWsAfter(doc: Document, senIdx: nat)
    requires WellFormed(doc) && DistinctTokens(doc) && senIdx < |doc.sentences|
    modifies Tokens(doc)
    ensures forall i :: 0 <= i < |doc.sentences[senIdx].tokens| ==>
      Tok(doc, senIdx, i).wsafter == WsAfter(doc, senIdx, i)
    ensures forall k, j :: IsPos(doc, k, j) && k != senIdx ==> Tok(doc, k, j).wsafter == old(Tok(doc, k, j).wsafter)
  {
    CreateInteriorWsAfter(doc, senIdx);
    // Sentence text has no trailing whitespace: the last token looks at
    // the document text instead.
    var sentence := doc.sentences[senIdx];
    var last := |sentence.tokens| - 1;
    var currentToken := Tok(doc, senIdx, last);
    var wsafter;
    if senIdx != |doc.sentences| - 1 {
      var nextToken := Tok(doc, senIdx + 1, 0);
      wsafter := Escape(PySlice(doc.text, currentToken.endChar, nextToken.startChar));
    } else {
      wsafter := Escape(PySliceFrom(doc.text, currentToken.endChar));
    }
    assert "\"" + wsafter + "\"" == WsAfter(doc, senIdx, last);
    TokenAt(doc, senIdx, last);
    StoreWsAfter(doc, senIdx, last, "\"" + wsafter + "\"");
  }

  /** `_create_wsafter_field`: stores the `wsafter` value on every token of
      every sentence, in place. */
  method CreateWsAfterField(doc: Document)
    requires WellFormed(doc) && DistinctTokens(doc)
    modifies Tokens(doc)
    ensures forall k, i :: IsPos(doc, k, i) ==> Tok(doc, k, i).wsafter == WsAfter(doc, k, i)
  {
    var senIdx := 0;
    while senIdx < |doc.sentences|
      invariant 0 <= senIdx <= |doc.sentences|
      invariant forall k, i :: IsPos(doc, k, i) && k < senIdx ==> Tok(doc, k, i).wsafter == WsAfter(doc, k, i)
    {
      CreateSentenceWsAfter(doc, senIdx);
      senIdx := senIdx + 1;
    }
  }

  // ---------------------------------------------------------------------
  // Reconstruction. When the offsets refer to the document text, the
  // sentence text is the document slice starting at its first token, and
  // each token's text is its own slice, the tokens interleaved with their
  // read-back gaps give back the document from the first token onwards.

  /** Where the gap after token `i` of sentence `k` ends in the document:
      the next token of the sentence, the first token of the next sentence,
      or the end of the document. */
  function NextStart(doc: Document, k: nat, i: nat): int
    requires WellFormed(doc) && IsPos(doc, k, i)
  {
    if i < |doc.sentences[k].tokens| - 1 then Tok(doc, k, i + 1).startChar
    else if k < |doc.sentences| - 1 then Tok(doc, k + 1, 0).startChar
    else |doc.text|
  }

  /** The offsets of one token are consistent with the document text. */
  predicate TokenFaithful(doc: Document, k: nat, i: nat)
    requires WellFormed(doc) && IsPos(doc, k, i)
  {
    var t := Tok(doc, k, i);
    && t.startChar <= t.endChar <= NextStart(doc, k, i) <= |doc.text|
    && t.text == doc.text[t.startChar..t.endChar]
  }

  /** The sentence text is the document text from the sentence's first
      token on, and it covers the sentence's last token. */
  predicate SentenceAnchored(doc: Document, k: nat)
    requires WellFormed(doc) && k < |doc.sentences|
  {
    var sentence := doc.sentences[k];
    var s0 := sentence.tokens[0].startChar;
    && s0 + |sentence.text| <= |doc.text|
    && sentence.text == doc.text[s0..s0 + |sentence.text|]
    && sentence.tokens[|sentence.tokens| - 1].endChar <= s0 + |sentence.text|
  }

  ghost predicate Faithful(doc: Document) {
    && WellFormed(doc)
    && (forall k: nat, i: nat {:trigger TokenFaithful(doc, k, i)} | IsPos(doc, k, i) :: TokenFaithful(doc, k, i))
    && (forall k: nat {:trigger SentenceAnchored(doc, k)} | k < |doc.sentences| :: SentenceAnchored(doc, k))
  }

  /** Token starts do not decrease within a sentence. */
  lemma {:induction false} StartMonotone(doc: Document, k: nat, i: nat, j: nat)
    requires Faithful(doc) && IsPos(doc, k, j) && i <= j
    ensures Tok(doc, k, i).startChar <= Tok(doc, k, j).startChar
    decreases j - i
  {
    if i < j {
      assert TokenFaithful(doc, k, i);
      StartMonotone(doc, k, i + 1, j);
    }
  }

  /** Under faithful offsets every gap is the document text between the
      token's end and the next start, whichever branch computed it. */
  lemma GapIsDocumentSlice(doc: Document, k: nat, i: nat)
    requires Faithful(doc) && IsPos(doc, k, i)
    ensures Tok(doc, k, i).endChar <= NextStart(doc, k, i) <= |doc.text|
    ensures Gap(doc, k, i) == doc.text[Tok(doc, k, i).endChar..NextStart(doc, k, i)]
  {
    assert TokenFaithful(doc, k, i);
    var sentence := doc.sentences[k];
    var n := |sentence.tokens|;
    if i < n - 1 {
      assert SentenceAnchored(doc, k);
      var s0 := sentence.tokens[0].startChar;
      var cur := Tok(doc, k, i);
      var next := Tok(doc, k, i + 1);
      StartMonotone(doc, k, 0, i);
      StartMonotone(doc, k, i + 1, n - 1);
      assert TokenFaithful(doc, k, n - 1);
      var a := cur.endChar - s0;
      var b := next.startChar - s0;
      assert 0 <= a <= b <= |sentence.text|;
      SliceOfSlice(doc.text, s0, s0 + |sentence.text|, a, b);
      calc {
        Gap(doc, k, i);
        PySlice(sentence.text, a, b);
        sentence.text[a..b];
        doc.text[s0..s0 + |sentence.text|][a..b];
        doc.text[s0 + a..s0 + b];
      }
    }
  }

  /** Where the gap after a sentence's last token ends. */
  function SentenceEnd(doc: Document, k: nat): int
    requires WellFormed(doc) && k < |doc.sentences|
  {
    NextStart(doc, k, |doc.sentences[k].tokens| - 1)
  }

  /** Each text followed by its gap, from position `i` to the end. */
  function Woven(texts: seq<string>, gaps: seq<string>, i: nat): string
    requires |texts| == |gaps|
    decreases |texts| - i
  {
    if i >= |texts| then "" else texts[i] + gaps[i] + Woven(texts, gaps, i + 1)
  }

  /** The token texts of sentence `k`. */
  function Texts(doc: Document, k: nat): (r: seq<string>)
    requires WellFormed(doc) && k < |doc.sentences|
    ensures |r| == |doc.sentences[k].tokens|
  {
    seq(|doc.sentences[k].tokens|, i requires 0 <= i < |doc.sentences[k].tokens| => Tok(doc, k, i).text)
  }

  /** The raw gaps after the tokens of sentence `k`. */
  function Gaps(doc: Document, k: nat): (r: seq<string>)
    requires WellFormed(doc) && k < |doc.sentences|
    ensures |r| == |doc.sentences[k].tokens|
  {
    seq(|doc.sentences[k].tokens|, i requires 0 <= i < |doc.sentences[k].tokens| => Gap(doc, k, i))
  }

  /** The `wsafter` values of sentence `k`, unquoted and unescaped. */
  function ReadBacks(doc: Document, k: nat): (r: seq<string>)
    requires WellFormed(doc) && k < |doc.sentences|
    ensures |r| == |doc.sentences[k].tokens|
  {
    seq(|doc.sentences[k].tokens|, i requires 0 <= i < |doc.sentences[k].tokens| =>
      Unescape(Unquote(WsAfter(doc, k, i))))
  }

  /** Token text followed by read-back `wsafter`, over all of sentence `k`. */
  function RebuiltSentence(doc: Document, k: nat): string
    requires WellFormed(doc) && k < |doc.sentences|
  {
    Woven(Texts(doc, k), ReadBacks(doc, k), 0)
  }

  /** The rebuilt text of every sentence, in document order. */
  function RebuiltSentences(doc: Document): (r: seq<string>)
    requires WellFormed(doc)
    ensures |r| == |doc.sentences|
  {
    seq(|doc.sentences|, k requires 0 <= k < |doc.sentences| => RebuiltSentence(doc, k))
  }

  /** The rebuilt document: the rebuilt sentences, concatenated. */
  function Rebuilt(doc: Document): string
    requires WellFormed(doc)
  {
    Concat(RebuiltSentences(doc))
  }

  /** Every `wsafter` value of a sentence reads back as its raw gap. */
  lemma ReadBacksAreGaps(doc: Document, k: nat)
    requires WellFormed(doc) && k < |doc.sentences|
    ensures ReadBacks(doc, k) == Gaps(doc, k)
  {
    forall i | 0 <= i < |doc.sentences[k].tokens|
      ensures ReadBacks(doc, k)[i] == Gaps(doc, k)[i]
    {
      WsAfterReadsBack(doc, k, i);
    }
  }

  /** From token `i` on, the texts woven with the raw gaps are the document
      text from that token to the sentence's end. */
  lemma {:induction false} WovenIsSlice(doc: Document, k: nat, i: nat)
    requires Faithful(doc) && IsPos(doc, k, i)
    ensures Tok(doc, k, i).startChar <= SentenceEnd(doc, k) <= |doc.text|
    ensures Woven(Texts(doc, k), Gaps(doc, k), i) == doc.text[Tok(doc, k, i).startChar..SentenceEnd(doc, k)]
    decreases |doc.sentences[k].tokens| - i
  {
    var n := |doc.sentences[k].tokens|;
    var t := Tok(doc, k, i);
    assert TokenFaithful(doc, k, i);
    GapIsDocumentSlice(doc, k, i);
    var gapEnd := NextStart(doc, k, i);
    SliceConcat(doc.text, t.startChar, t.endChar, gapEnd);
    var head := t.text + Gap(doc, k, i);
    assert head == doc.text[t.startChar..gapEnd];
    var w := Woven(Texts(doc, k), Gaps(doc, k), i);
    assert w == head + Woven(Texts(doc, k), Gaps(doc, k), i + 1);
    if i == n - 1 {
      assert w == head + "";
    } else {
      WovenIsSlice(doc, k, i + 1);
      assert gapEnd == Tok(doc, k, i + 1).startChar;
      SliceConcat(doc.text, t.startChar, gapEnd, SentenceEnd(doc, k));
    }
  }

  /** A whole sentence rebuilds the document text from its first token to
      where its last gap ends. */
  lemma RebuiltSentenceIsSlice(doc: Document, k: nat)
    requires Faithful(doc) && k < |doc.sentences|
    ensures Tok(doc, k, 0).startChar <= SentenceEnd(doc, k) <= |doc.text|
    ensures RebuiltSentence(doc, k) == doc.text[Tok(doc, k, 0).startChar..SentenceEnd(doc, k)]
  {
    ReadBacksAreGaps(doc, k);
    WovenIsSlice(doc, k, 0);
  }

  /** Where each sentence's rebuilt text starts in the document, and
      finally the end of the document. */
  function Cuts(doc: Document): (r: seq<nat>)
    requires WellFormed(doc)
    ensures |r| == |doc.sentences| + 1
  {
    seq(|doc.sentences| + 1, j requires 0 <= j <= |doc.sentences| =>
      if j < |doc.sentences| then Tok(doc, j, 0).startChar else |doc.text|)
  }

  /** Sentence `j` rebuilds the document text between its cut and the next. */
  lemma SentenceIsCut(doc: Document, j: nat)
    requires Faithful(doc) && j < |doc.sentences|
    ensures SliceAt(doc.text, RebuiltSentences(doc), Cuts(doc), j)
  {
    RebuiltSentenceIsSlice(doc, j);
    assert SentenceEnd(doc, j) == Cuts(doc)[j + 1];
  }

  /** The round trip of the whitespace field: interleaving every token's
      text with its unescaped `wsafter` reproduces the document text from
      the first token to the end. */
  lemma Reconstruction(doc: Document)
    requires Faithful(doc) && |doc.sentences| > 0
    ensures Tok(doc, 0, 0).startChar <= |doc.text|
    ensures Rebuilt(doc) == doc.text[Tok(doc, 0, 0).startChar..]
  {
    forall j | 0 <= j < |doc.sentences|
      ensures SliceAt(doc.text, RebuiltSentences(doc), Cuts(doc), j)
    {
      SentenceIsCut(doc, j);
    }
    ConcatOfSlices(doc.text, RebuiltSentences(doc), Cuts(doc));
  }
}
