/** The sentence encoders: what the adapters hand to the NLP pipeline.
    Tokenising tasks give it the raw text of the input block, without its
    comment lines; the parsing tasks give it an already tagged one-sentence
    document built from the rows. */
module Encoders {
  import opened PyStr
  import opened Xtsv
  import opened StanzaDoc

  predicate IsComment(line: string) {
    StartsWith(line, "#")
  }

  /** The lines kept by the encoder: those that are not comments, in order. */
  function KeptLines(lines: seq<string>): (r: seq<string>)
    ensures forall l :: l in r ==> l in lines && !IsComment(l)
    ensures forall l :: l in lines && !IsComment(l) ==> l in r
  {
    if |lines| == 0 then []
    else (if IsComment(lines[0]) then [] else [lines[0]]) + KeptLines(lines[1..])
  }

  /** `_join_lines_ignore_hashmark`: the lines that do not start with `#`,
      concatenated in input order with no separator, as `''.join` of the
      kept lines. */
  function JoinLinesIgnoreHashmark(lines: seq<string>): (r: string)
    ensures r == Concat(KeptLines(lines))
  {
    if |lines| == 0 then ""
    else
      var first := if IsComment(lines[0]) then [] else [lines[0]];
      ConcatAppend(first, KeptLines(lines[1..]));
      (if IsComment(lines[0]) then "" else lines[0]) + JoinLinesIgnoreHashmark(lines[1..])
  }

  /** Encoding distributes over splitting the block: the text of `a + b`
      is the text of `a` followed by the text of `b`. With
      JoinLinesSingle this fixes the encoder completely. */
  lemma {:induction false} JoinLinesAppend(a: seq<string>, b: seq<string>)
    ensures JoinLinesIgnoreHashmark(a + b) == JoinLinesIgnoreHashmark(a) + JoinLinesIgnoreHashmark(b)
  {
    KeptLinesAppend(a, b);
    ConcatAppend(KeptLines(a), KeptLines(b));
  }

  /** The kept lines of `a + b` are those of `a`, then those of `b`. */
  lemma {:induction false} KeptLinesAppend(a: seq<string>, b: seq<string>)
    ensures KeptLines(a + b) == KeptLines(a) + KeptLines(b)
  {
    if |a| == 0 {
      assert a + b == b;
    } else {
      assert (a + b)[0] == a[0] && (a + b)[1..] == a[1..] + b;
      KeptLinesAppend(a[1..], b);
    }
  }

  /** A single comment line contributes nothing; any other line
      contributes itself verbatim. */
  lemma JoinLinesSingle(line: string)
    ensures JoinLinesIgnoreHashmark([line]) == if IsComment(line) then "" else line
  {
  }

  /** The four columns the parser input is read from are present in the
      index and within the row. */
  predicate Readable(row: Row, fieldNames: FieldNames) {
    && "form" in fieldNames && fieldNames["form"] < |row|
    && "lemma" in fieldNames && fieldNames["lemma"] < |row|
    && "upostag" in fieldNames && fieldNames["upostag"] < |row|
    && "feats" in fieldNames && fieldNames["feats"] < |row|
  }

  /** The entry for the `i`-th row (1-based): the dictionary literal reads
      `form`, `lemma`, `upostag` and `feats` in this order, so the first
      missing column name or short row decides the error. */
  function EntryOf(i: nat, row: Row, fieldNames: FieldNames): (r: Result<Entry>)
    ensures r.Ok? <==> Readable(row, fieldNames)
    ensures r.Ok? ==> r.value == Entry(i, row[fieldNames["form"]], row[fieldNames["lemma"]],
                                       row[fieldNames["upostag"]], row[fieldNames["feats"]])
    ensures r.Err? ==> r.error in {KeyError("form"), KeyError("lemma"), KeyError("upostag"), KeyError("feats"), IndexError}
    ensures Cell(row, fieldNames, "form").Err? ==> r == Err(Cell(row, fieldNames, "form").error)
    ensures (Cell(row, fieldNames, "form").Ok? && Cell(row, fieldNames, "lemma").Err?) ==>
      r == Err(Cell(row, fieldNames, "lemma").error)
    ensures (Cell(row, fieldNames, "form").Ok? && Cell(row, fieldNames, "lemma").Ok? &&
             Cell(row, fieldNames, "upostag").Err?) ==>
      r == Err(Cell(row, fieldNames, "upostag").error)
    ensures (Cell(row, fieldNames, "form").Ok? && Cell(row, fieldNames, "lemma").Ok? &&
             Cell(row, fieldNames, "upostag").Ok? && Cell(row, fieldNames, "feats").Err?) ==>
      r == Err(Cell(row, fieldNames, "feats").error)
  {
    var form := Cell(row, fieldNames, "form");
    var lemmaForm := Cell(row, fieldNames, "lemma");
    var upos := Cell(row, fieldNames, "upostag");
    var feats := Cell(row, fieldNames, "feats");
    if form.Err? then Err(form.error)
    else if lemmaForm.Err? then Err(lemmaForm.error)
    else if upos.Err? then Err(upos.error)
    else if feats.Err? then Err(feats.error)
    else Ok(Entry(i, form.value, lemmaForm.value, upos.value, feats.value))
  }

  /** Every row can be read. */
  predicate AllReadable(sen: seq<Row>, fieldNames: FieldNames) {
    forall j :: 0 <= j < |sen| ==> Readable(sen[j], fieldNames)
  }

  /** The entries of a readable sentence, numbered from 1. */
  function ParseEntries(sen: seq<Row>, fieldNames: FieldNames): (r: seq<Entry>)
    requires AllReadable(sen, fieldNames)
    ensures |r| == |sen|
  {
    seq(|sen|, j requires 0 <= j < |sen| => EntryOf(j + 1, sen[j], fieldNames).value)
  }

  /** `_encode_parse` (and the identical loop in the parse-only adapter):
      a document with exactly one sentence and one entry per row, ids
      1..N in row order, each entry copied from its row's `form`, `lemma`,
      `upostag` and `feats` columns. The first row that cannot be read
      decides the error. */
  method EncodeParse(sen: seq<Row>, fieldNames: FieldNames) returns (r: Result<seq<seq<Entry>>>)
    ensures r.Ok? <==> AllReadable(sen, fieldNames)
    ensures r.Ok? ==> r.value == [ParseEntries(sen, fieldNames)]
    ensures r.Ok? ==> |r.value| == 1 && |r.value[0]| == |sen|
    ensures r.Ok? ==> forall j :: 0 <= j < |sen| ==>
      Readable(sen[j], fieldNames) &&
      var e := r.value[0][j];
      && e.id == j + 1
      && e.text == sen[j][fieldNames["form"]]
      && e.lemmaForm == sen[j][fieldNames["lemma"]]
      && e.upos == sen[j][fieldNames["upostag"]]
      && e.feats == sen[j][fieldNames["feats"]]
    ensures r.Err? ==> exists j :: (0 <= j < |sen| && EntryOf(j + 1, sen[j], fieldNames) == Err(r.error) &&
                                    forall m :: 0 <= m < j ==> Readable(sen[m], fieldNames))
  {
    var stanzaSentence: seq<Entry> := [];
    var i := 0;
    while i < |sen|
      invariant 0 <= i <= |sen|
      invariant |stanzaSentence| == i
      invariant forall j :: 0 <= j < i ==> EntryOf(j + 1, sen[j], fieldNames) == Ok(stanzaSentence[j])
    {
      var entry := EntryOf(i + 1, sen[i], fieldNames);
      if entry.Err? {
        return Err(entry.error);
      }
      stanzaSentence := stanzaSentence + [entry.value];
      i := i + 1;
    }
    assert stanzaSentence == ParseEntries(sen, fieldNames);
    return Ok([stanzaSentence]);
  }
}
