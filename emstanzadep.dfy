/** The `EmStanzaDep` adapter: dependency parsing of already tagged rows.
    The rows are encoded as one pre-tagged sentence, parsed by the
    external pipeline (a function parameter here), and the parse is merged
    back into the caller's rows in place, under one of two naming
    conventions for the dependency labels. */
module EmStanzaDep {
  import opened PyStr
  import opened PyInt
  import opened Xtsv
  import opened StanzaDoc
  import opened Encoders
  import opened Decoders

  /** `stanza` keeps the parser's labels; `magyarlanc` rewrites them. */
  datatype Convention = Stanza | Magyarlanc

  const ConventionMessage: string := "Naming convention can either be `stanza` or `magyarlanc`."

  function LookupConvention(name: string): (r: Result<Convention>)
    ensures r == Ok(Stanza) <==> name == "stanza"
    ensures r == Ok(Magyarlanc) <==> name == "magyarlanc"
    ensures r.Err? <==> name != "stanza" && name != "magyarlanc"
    ensures r.Err? ==> r.error == NotImplementedError(ConventionMessage)
  {
    if name == "stanza" then Ok(Stanza)
    else if name == "magyarlanc" then Ok(Magyarlanc)
    else Err(NotImplementedError(ConventionMessage))
  }

  /** The magyarlanc label: what follows the first `:` of the parser's
      label (all of it when there is none), upper-cased. */
  function LancDeprel(deprel: string): (r: string)
    ensures |r| <= |deprel|
  {
    Upper(deprel[Find(deprel, ':') + 1..])
  }

  /** With a colon, the label is the upper-cased text after the first one. */
  lemma LancDeprelAfterFirstColon(deprel: string, i: nat)
    requires i < |deprel| && deprel[i] == ':' && ':' !in deprel[..i]
    ensures LancDeprel(deprel) == Upper(deprel[i + 1..])
    ensures |LancDeprel(deprel)| == |deprel| - i - 1
  {
  }

  /** Without a colon, the label is the whole label upper-cased. */
  lemma LancDeprelNoColon(deprel: string)
    requires ':' !in deprel
    ensures LancDeprel(deprel) == Upper(deprel)
  {
    assert deprel[0..] == deprel;
  }

  /** The fields `_to_lanc` appends for one parse. */
  function LancFields(w: Word): (r: Row)
    ensures |r| == 3 && r[1] == LancDeprel(w.deprel)
  {
    [IntToString(w.id), LancDeprel(w.deprel), IntToString(w.head)]
  }

  /** The two conventions write the same `id` and `head` and differ only
      in the label, which magyarlanc derives from stanza's. */
  lemma LancAgreesWithStanza(w: Word)
    ensures LancFields(w)[0] == StanzaFields(w)[0] && LancFields(w)[2] == StanzaFields(w)[2]
    ensures LancFields(w)[1] == LancDeprel(StanzaFields(w)[1])
    ensures ParseInt(LancFields(w)[0]) == w.id && ParseInt(LancFields(w)[2]) == w.head
  {
  }

  function StanzaRows(parses: seq<Word>): (r: seq<Row>)
    ensures |r| == |parses|
  {
    seq(|parses|, i requires 0 <= i < |parses| => StanzaFields(parses[i]))
  }

  function LancRows(parses: seq<Word>): (r: seq<Row>)
    ensures |r| == |parses|
  {
    seq(|parses|, i requires 0 <= i < |parses| => LancFields(parses[i]))
  }

  /** The rows after a conversion, and the exception it raised if any
      (the rows then stay as far as the conversion got). */
  datatype Outcome = Outcome(rows: seq<Row>, error: Option<Error>)

  /** `_to_stanza`: `depparsed_sentence[0]` is zipped onto the rows. */
  function StanzaOutcome(rows: seq<Row>, depparsed: seq<seq<Word>>): (r: Outcome)
    ensures |r.rows| == |rows|
    ensures r.error.Some? <==> |depparsed| == 0
    ensures r.error.Some? ==> r == Outcome(rows, Some(IndexError))
  {
    if |depparsed| == 0 then Outcome(rows, Some(IndexError))
    else Outcome(ZipAppend(rows, StanzaRows(depparsed[0])), None)
  }

  /** `sen[-1][-1] = '0'`. */
  function SetLastField(rows: seq<Row>, value: string): (r: seq<Row>)
    requires |rows| > 0 && |rows[|rows| - 1]| > 0
    ensures |r| == |rows| && r[..|rows| - 1] == rows[..|rows| - 1]
    ensures |r[|rows| - 1]| == |rows[|rows| - 1]|
    ensures r[|rows| - 1][..|r[|rows| - 1]| - 1] == rows[|rows| - 1][..|rows[|rows| - 1]| - 1]
    ensures r[|rows| - 1][|r[|rows| - 1]| - 1] == value
  {
    var last := rows[|rows| - 1];
    rows[|rows| - 1 := last[..|last| - 1] + [value]]
  }

  /** `sen[-1][-1] = '0'` after the rows were extended. */
  function OverwriteLastField(appended: seq<Row>): (r: Outcome)
    ensures |r.rows| == |appended|
    ensures r.error.Some? <==> |appended| == 0 || |appended[|appended| - 1]| == 0
    ensures r.error.Some? ==> r == Outcome(appended, Some(IndexError))
    ensures r.error.None? ==>
      && r.rows[..|appended| - 1] == appended[..|appended| - 1]
      && r.rows[|appended| - 1] == appended[|appended| - 1][..|appended[|appended| - 1]| - 1] + ["0"]
  {
    if |appended| == 0 || |appended[|appended| - 1]| == 0 then Outcome(appended, Some(IndexError))
    else Outcome(SetLastField(appended, "0"), None)
  }

  /** `_to_lanc`: the magyarlanc fields are zipped onto the rows, then the
      last field of the last row becomes `0`. */
  function LancOutcome(rows: seq<Row>, depparsed: seq<seq<Word>>): (r: Outcome)
    ensures |r.rows| == |rows|
    ensures r.error.Some? ==> r.error == Some(IndexError)
  {
    if |depparsed| == 0 then Outcome(rows, Some(IndexError))
    else OverwriteLastField(ZipAppend(rows, LancRows(depparsed[0])))
  }

  /** `_to_lanc` raises exactly when the parse has no sentence, the
      sentence is empty, or the last row has no field of its own and no
      parse to extend it. */
  lemma LancOutcomeError(rows: seq<Row>, depparsed: seq<seq<Word>>)
    ensures LancOutcome(rows, depparsed).error.Some? <==>
      |depparsed| == 0 || |rows| == 0 || (|depparsed[0]| < |rows| && |rows[|rows| - 1]| == 0)
  {
    if |depparsed| > 0 && |rows| > 0 {
      var extra, n := LancRows(depparsed[0]), |rows| - 1;
      var appended := ZipAppend(rows, extra);
      ZipAppendAt(rows, extra, n);
      assert LancOutcome(rows, depparsed) == OverwriteLastField(appended);
      if n < |extra| {
        assert |extra[n]| == 3;
      }
    }
  }

  /** `self.convert(sen, depparsed_sentence)`: either conversion keeps
      the number of rows, and the only exception either raises is
      IndexError. */
  function ConvertOutcome(convention: Convention, rows: seq<Row>, depparsed: seq<seq<Word>>): (r: Outcome)
    ensures |r.rows| == |rows|
    ensures r.error.Some? ==> r.error == Some(IndexError)
  {
    match convention
    case Stanza => StanzaOutcome(rows, depparsed)
    case Magyarlanc => LancOutcome(rows, depparsed)
  }

  /** Under the stanza convention every row paired with a parse gains
      `[id, deprel, head]` and every other row is left alone; only a parse
      without sentences fails, and then nothing changes. */
  lemma StanzaOutcomeRows(rows: seq<Row>, depparsed: seq<seq<Word>>, i: nat)
    requires i < |rows|
    ensures |StanzaOutcome(rows, depparsed).rows| == |rows|
    ensures StanzaOutcome(rows, depparsed).error.Some? <==> |depparsed| == 0
    ensures |depparsed| == 0 ==> StanzaOutcome(rows, depparsed).rows == rows
    ensures |depparsed| > 0 ==>
      StanzaOutcome(rows, depparsed).rows[i] ==
        (if i < |depparsed[0]| then rows[i] + StanzaFields(depparsed[0][i]) else rows[i])
  {
    if |depparsed| > 0 {
      ZipAppendAt(rows, StanzaRows(depparsed[0]), i);
    }
  }

  /** Under the magyarlanc convention every row but the last is extended
      as under stanza, with the rewritten label. */
  lemma LancOutcomeInnerRow(rows: seq<Row>, depparsed: seq<seq<Word>>, i: nat)
    requires |depparsed| > 0 && i + 1 < |rows|
    ensures |LancOutcome(rows, depparsed).rows| == |rows|
    ensures LancOutcome(rows, depparsed).rows[i] ==
      (if i < |depparsed[0]| then rows[i] + LancFields(depparsed[0][i]) else rows[i])
  {
    var extra := LancRows(depparsed[0]);
    ZipAppendAt(rows, extra, i);
    ZipAppendAt(rows, extra, |rows| - 1);
  }

  /** A last row paired with a parse gets `[id, label, '0']`: the head
      of the last word is replaced by the root marker. */
  lemma LancOutcomePairedLastRow(rows: seq<Row>, depparsed: seq<seq<Word>>)
    requires |depparsed| > 0 && 0 < |rows| <= |depparsed[0]|
    ensures |LancOutcome(rows, depparsed).rows| == |rows|
    ensures LancOutcome(rows, depparsed).error.None?
    ensures LancOutcome(rows, depparsed).rows[|rows| - 1] ==
      rows[|rows| - 1] + [IntToString(depparsed[0][|rows| - 1].id), LancDeprel(depparsed[0][|rows| - 1].deprel), "0"]
  {
    var n := |rows| - 1;
    ZipAppendAt(rows, LancRows(depparsed[0]), n);
    var row := rows[n] + LancFields(depparsed[0][n]);
    assert row[..|row| - 1] == rows[n] + [IntToString(depparsed[0][n].id), LancDeprel(depparsed[0][n].deprel)];
  }

  /** A last row without a parse loses its own last field to `0`, and an
      empty one raises IndexError. */
  lemma LancOutcomeUnpairedLastRow(rows: seq<Row>, depparsed: seq<seq<Word>>)
    requires |depparsed| > 0 && |depparsed[0]| < |rows|
    ensures |LancOutcome(rows, depparsed).rows| == |rows|
    ensures LancOutcome(rows, depparsed).error.None? <==> |rows[|rows| - 1]| > 0
    ensures |rows[|rows| - 1]| > 0 ==>
      LancOutcome(rows, depparsed).rows[|rows| - 1] == rows[|rows| - 1][..|rows[|rows| - 1]| - 1] + ["0"]
    ensures |rows[|rows| - 1]| == 0 ==> LancOutcome(rows, depparsed).rows[|rows| - 1] == rows[|rows| - 1]
  {
    var n := |rows| - 1;
    var appended := ZipAppend(rows, LancRows(depparsed[0]));
    ZipAppendAt(rows, LancRows(depparsed[0]), n);
    assert LancOutcome(rows, depparsed) == OverwriteLastField(appended);
    assert |appended| == |rows| && appended[n] == rows[n];
  }

  /** `sen[-1]` of an empty sentence raises IndexError under magyarlanc;
      the stanza convention accepts it. */
  lemma EmptySentence(depparsed: seq<seq<Word>>)
    ensures LancOutcome([], depparsed) == Outcome([], Some(IndexError))
    ensures |depparsed| > 0 ==> StanzaOutcome([], depparsed) == Outcome([], None)
  {
  }

  /** `_to_stanza`, in place on the caller's rows. */
  method ToStanza(sen: array<Row>, depparsed: seq<seq<Word>>) returns (err: Option<Error>)
    modifies sen
    ensures sen[..] == StanzaOutcome(old(sen[..]), depparsed).rows
    ensures err == StanzaOutcome(old(sen[..]), depparsed).error
  {
    if |depparsed| == 0 {
      return Some(IndexError);
    }
    ExtendRows(sen, StanzaRows(depparsed[0]));
    return None;
  }

  /** `_to_lanc`, in place on the caller's rows. */
  method ToLanc(sen: array<Row>, depparsed: seq<seq<Word>>) returns (err: Option<Error>)
    modifies sen
    ensures sen[..] == LancOutcome(old(sen[..]), depparsed).rows
    ensures err == LancOutcome(old(sen[..]), depparsed).error
  {
    if |depparsed| == 0 {
      return Some(IndexError);
    }
    ExtendRows(sen, LancRows(depparsed[0]));
    if sen.Length == 0 || |sen[sen.Length - 1]| == 0 {
      return Some(IndexError);
    }
    var last := sen[sen.Length - 1];
    sen[sen.Length - 1] := last[..|last| - 1] + ["0"];
    return None;
  }

  class EmStanzaDep {
    const namingConvention: string
    const convert: Convention

    /** `__init__` for a known convention. */
    constructor (convention: Convention)
      ensures convert == convention
      ensures LookupConvention(namingConvention) == Ok(convention)
    {
      convert := convention;
      namingConvention := match convention case Stanza => "stanza" case Magyarlanc => "magyarlanc";
    }

    /** `process_sentence`: the rows are read into one pre-tagged
        sentence (ids from 1), parsed, and merged back in place by the
        configured convention; the same rows are returned. An unreadable
        row raises before the parser runs and leaves the rows unchanged. */
    method ProcessSentence(sen: array<Row>, fieldNames: FieldNames, depparse: seq<seq<Entry>> -> seq<seq<Word>>)
      returns (r: Result<array<Row>>)
      modifies sen
      ensures !AllReadable(old(sen[..]), fieldNames) ==> r.Err? && sen[..] == old(sen[..])
      ensures !AllReadable(old(sen[..]), fieldNames) ==>
        exists j :: (0 <= j < sen.Length && EntryOf(j + 1, old(sen[j]), fieldNames) == Err(r.error) &&
                     forall m :: 0 <= m < j ==> Readable(old(sen[m]), fieldNames))
      ensures AllReadable(old(sen[..]), fieldNames) ==>
        var outcome := ConvertOutcome(convert, old(sen[..]), depparse([ParseEntries(old(sen[..]), fieldNames)]));
        && sen[..] == outcome.rows
        && (outcome.error.None? ==> r == Ok(sen))
        && (outcome.error.Some? ==> r == Err(outcome.error.value))
    {
      var stanzaSentence := EncodeParse(sen[..], fieldNames);
      if stanzaSentence.Err? {
        return Err(stanzaSentence.error);
      }
      var depparsedSentence := depparse(stanzaSentence.value);
      var err;
      match convert {
        case Stanza => err := ToStanza(sen, depparsedSentence);
        case Magyarlanc => err := ToLanc(sen, depparsedSentence);
      }
      if err.Some? {
        return Err(err.value);
      }
      return Ok(sen);
    }
  }

  /** `EmStanzaDep(naming_convention)`: `stanza` or `magyarlanc`, anything
      else raises NotImplementedError. */
  method NewEmStanzaDep(namingConvention: string) returns (r: Result<EmStanzaDep>)
    ensures r.Err? <==> namingConvention != "stanza" && namingConvention != "magyarlanc"
    ensures r.Err? ==> r.error == NotImplementedError(ConventionMessage)
    ensures r.Ok? ==> fresh(r.value) && r.value.namingConvention == namingConvention
    ensures r.Ok? ==> LookupConvention(namingConvention) == Ok(r.value.convert)
  {
    var convention := LookupConvention(namingConvention);
    if convention.Err? {
      return Err(convention.error);
    }
    var adapter := new EmStanzaDep(convention.value);
    return Ok(adapter);
  }
}
