# emstanza adapters in Dafny

This project models the two xtsv adapter classes of emstanza. They plug the
Stanza Hungarian NLP pipeline into the xtsv token-stream framework.

- `EmStanza` (emstanza/emstanza.py) takes a task name. A fixed table maps the
  name to the pipeline's processors and to a pair of sentence encoder and
  decoder.
  - The four tokenising tasks (`tok`, `tok-pos`, `tok-lem`, `tok-parse`) do
    the following:
    1. They join the raw input lines, dropping `#` comment lines.
    2. They let the pipeline tokenise and tag the text.
    3. They recover the whitespace after every token from the character
       offsets and store it on the token (`wsafter`).
    4. They write one tab-separated block per sentence.
  - The `parse` task reads an already tagged sentence from the caller's rows.
    It runs the dependency parser on it and appends `id`, `deprel` and `head`
    to the rows in place.
- `EmStanzaDep` (emstanzadep/emstanzadep.py) does the same dependency-parsing
  round trip. It merges the parse back under one of two label conventions.
  - `stanza` keeps the parser's labels.
  - `magyarlanc` keeps the upper-cased part of the label after the first `:`,
    and writes `0` into the last field of the last row.

The model is arranged as follows:

- The pipeline's output is plain data.
  - A `Document` holds its text and its sentences.
  - A `Sentence` holds its text and its non-empty sequence of tokens.
  - A `Token` is an object with its text, its start and end offsets and one
    word analysis.
  - The token is a class because the reconstructor stores `wsafter` on it in
    place.
- The caller's sentence is an `array<Row>`, where a row is a sequence of
  field strings. The in-place `line += [...]` extensions update that array.
- The pipeline is a function parameter of the `process_sentence` methods.
- Python's behaviour is modelled where the adapters depend on it:
  - Slicing with negative and out-of-range bounds.
  - `str.find`, `str.startswith`, `str.join` and `str(int)`.
  - The `repr` escaping of whitespace, with `Unescape` as its inverse.

Modules, one per file:

- `PyStr`, `PyInt` and `PyRepr` hold the Python helpers.
- `Xtsv` holds rows, field indexes, errors and zip-extension.
- `StanzaDoc` holds the pipeline's document.
- `Encoders`, `WsAfterField` and `Decoders` hold the sentence conversions.
- `EmStanza` and `EmStanzaDep` hold the two adapter classes.

Python exceptions are modelled as `Err` values of a `Result`:
`ValueError(message)`, `NotImplementedError(message)`, `KeyError(name)` and
`IndexError`.

Some behaviours of the code worth stating outright:

- The task table has exactly five entries, so the ValueError message lists
  five names.
- A token/row count mismatch is not an error. `zip` pairs the shorter
  sequence and leaves the other rows alone.
- Only `feats` and `xpos` are replaced by the `_` placeholder; `upos` never
  is.

## Model

| member | source | states |
|---|---|---|
| EmStanza.LookupTask | emstanza/emstanza.py:30-44 | A name is accepted exactly when it is one of `tok`, `tok-pos`, `tok-lem`, `tok-parse`, `parse`. The task found is the one registered under that name. |
| EmStanza.TaskNameRoundTrip | emstanza/emstanza.py:30-36 | Every task is registered under its own name, and looking that name up gives the task back. |
| EmStanza.SetupOf | emstanza/emstanza.py:60-83 | `parse` alone uses the pre-tagged encoder, the parse decoder and a pre-tagged parser. The four `tok*` tasks share the line-joining encoder, and their decoders write rows of 2, 5, 6 and 9 fields. |
| EmStanza.SetupDispatch | emstanza/emstanza.py:60-83 | No two tasks share a decoder or a processor list. |
| EmStanza.UnknownTaskMessage | emstanza/emstanza.py:44 | The message starts with the fixed prefix; UnknownTaskMessageText gives its full text. |
| EmStanza.UnknownTaskMessageText | emstanza/emstanza.py:44 | The ValueError message is the fixed prefix followed by the five task names joined by `" or "`, in table order. |
| EmStanza.NewEmStanza | emstanza/emstanza.py:19-46 | An unknown name gives ValueError with that message. Otherwise a new adapter is configured as the table says for the task, and it records the task name. |
| EmStanza.EmStanza.constructor | emstanza/emstanza.py:40-46 | The fields hold the processors, the pretagged flag, the encoder and the decoder that `_setup_*` assigns for the task. |
| EmStanza.EmStanza.ProcessRawSentence | emstanza/emstanza.py:228-249 | For a tokenising task, the output is one block per sentence of the document that the pipeline returns for the comment-free joined lines. Each block is the decoder's rows for that sentence. |
| EmStanza.EmStanza.ProcessTaggedSentence | emstanza/emstanza.py:228-249 | For `parse`, an unreadable row fails before the pipeline runs, with the first failing row's error, and the rows are unchanged. A parse without sentences gives IndexError, with the rows unchanged. Otherwise the rows are zip-extended with the first sentence's dependency fields and yielded. |
| Encoders.KeptLinesAppend | emstanza/emstanza.py:87 | The kept lines of two concatenated blocks are those of the first, then those of the second. |
| Encoders.KeptLines | emstanza/emstanza.py:87 | A line is kept exactly when it is an input line that does not start with `#`. |
| Encoders.JoinLinesIgnoreHashmark | emstanza/emstanza.py:86-87 | The encoded text is `''.join` of exactly the non-comment lines, in input order and with no separator. |
| Encoders.JoinLinesAppend | emstanza/emstanza.py:87 | Encoding distributes over concatenation of the input lines. |
| PyStr.StartsWith | emstanza/emstanza.py:87 | `line.startswith('#')` holds exactly when the prefix is the line's first characters; JoinLinesSingle shows that a line starting with `#` is dropped and any other one kept. |
| Encoders.JoinLinesSingle | emstanza/emstanza.py:87 | One comment line contributes nothing, and any other line contributes itself verbatim. |
| Encoders.EntryOf | emstanza/emstanza.py:99-100 | A row converts exactly when the `form`, `lemma`, `upostag` and `feats` columns exist and lie within the row. The entry copies those columns with the given id. Otherwise the columns are read in the order `form`, `lemma`, `upostag`, `feats`, and the error is that of the first column that fails: KeyError for a missing name, IndexError for an index past the row. |
| Encoders.EncodeParse | emstanza/emstanza.py:90-102 | The encoding succeeds exactly when every row is readable. It then gives exactly one sentence with one entry per row, ids 1..N in row order, and fields copied from their columns. On failure it gives the error of the first unreadable row. |
| WsAfterField.CreateWsAfterField | emstanza/emstanza.py:200-226 | Every token of every sentence gets `wsafter` equal to the double-quoted escaped gap. The gap comes from the sentence-relative slice for interior tokens, and from the document slice up to the next sentence, or to the end, for last tokens. |
| WsAfterField.Gap | emstanza/emstanza.py:210-226 | An interior gap is a slice of the sentence text and a last gap a slice of the document text, so neither is longer than its source. InteriorGap and LastTokenGap say which slice. Under faithful offsets, GapIsDocumentSlice makes every gap a slice of the document text. |
| WsAfterField.WsAfter | emstanza/emstanza.py:215-226 | The value is the escaped gap between two quotes, at least two characters longer than the gap. WsAfterQuoted and WsAfterReadsBack characterise it. |
| WsAfterField.WsAfterQuoted | emstanza/emstanza.py:216-226 | Every `wsafter` value begins and ends with `"`, and an empty gap gives `""`. |
| WsAfterField.WsAfterReadsBack | emstanza/emstanza.py:215-226 | Unquoting and unescaping a `wsafter` value gives back the raw gap. |
| WsAfterField.LastTokenGap | emstanza/emstanza.py:218-225 | The last token of any sentence, one-token sentences included, takes its gap from the document text. The gap runs up to the next sentence's first token, or to the end in the final sentence. |
| WsAfterField.GapIsDocumentSlice | emstanza/emstanza.py:210-225 | For faithful offsets, every gap, interior or last, is the document text from the token's end to the next token's start, or to the end of the document. |
| WsAfterField.StartMonotone | emstanza/emstanza.py:211-215 | For faithful offsets, token starts do not decrease within a sentence. |
| WsAfterField.ReadBacksAreGaps | emstanza/emstanza.py:215-226 | Within a sentence, every `wsafter` value, unquoted and unescaped, is that token's raw gap. |
| WsAfterField.WovenIsSlice | emstanza/emstanza.py:208-226 | For faithful offsets, token texts interleaved with raw gaps from token i to the end of the sentence give the document text from token i's start to where the sentence's last gap ends. |
| WsAfterField.RebuiltSentenceIsSlice | emstanza/emstanza.py:208-226 | A whole sentence's token texts, interleaved with its read-back `wsafter` values, give the document text from its first token to where its last gap ends. |
| WsAfterField.SentenceIsCut | emstanza/emstanza.py:218-226 | Sentence j's rebuilt text is the document text from its first token to the next sentence's first token, or to the end of the document for the last sentence. |
| WsAfterField.Reconstruction | emstanza/emstanza.py:208-226 | Token texts interleaved with unescaped `wsafter` values, over all sentences in order, reproduce the document text from the first token to the end. |
| WsAfterField.InteriorGap | emstanza/emstanza.py:210-215 | An interior token's gap is the sentence-text slice between its end and the next token's start, both taken relative to the sentence's first token. |
| WsAfterField.StoreWsAfter | emstanza/emstanza.py:216 | Assigning `wsafter` changes that token's value and no other token's. |
| WsAfterField.StoreInteriorWsAfter | emstanza/emstanza.py:211-216 | An interior token gets its quoted escaped gap, and no other token changes. |
| WsAfterField.CreateInteriorWsAfter | emstanza/emstanza.py:210-216 | Every token of the sentence except the last gets its `wsafter`, and other sentences' tokens keep theirs. |
| WsAfterField.CreateSentenceWsAfter | emstanza/emstanza.py:208-226 | Every token of the sentence gets its `wsafter`, the last one from the document text, and other sentences' tokens keep theirs. |
| PyStr.ConcatOfSlices | emstanza/emstanza.py:208-226 | Slices of one string laid end to end concatenate to the slice from the first cut to the last. |
| PyRepr.EscapeRoundTrip | emstanza/emstanza.py:215 | Unescaping the escaped gap gives the gap back. |
| PyRepr.EscapeHasNoTabOrNewline | emstanza/emstanza.py:215 | The escaped gap holds no tab and no newline, so it cannot break a row or a line. |
| PyRepr.Escape | emstanza/emstanza.py:215 | The escaped text is at least as long as the gap and at most four times as long. |
| PyStr.PySlice | emstanza/emstanza.py:215 | Python slicing is never longer than the sequence, equals the Dafny slice for in-range bounds, and is empty when 0 <= end <= start. |
| PyStr.PySliceFrom | emstanza/emstanza.py:225 | An open-ended slice from an in-range start is the suffix, and from beyond the end it is empty. |
| Decoders.RowFields | emstanza/emstanza.py:133-134 | The row has 2, 5, 6 or 9 fields for tok, tok-pos, tok-lem and tok-parse. They are `form` and `wsafter`, then `feats` or `_`, `upos`, and `xpos` or `_`, then `lemma`, then `str(id)`, `deprel` and `str(head)`. |
| Decoders.RowFieldsExtend | emstanza/emstanza.py:133-194 | Each richer variant's row starts with the poorer variant's row for the same token. |
| Decoders.OrPlaceholder | emstanza/emstanza.py:133 | A missing or empty tag becomes `_`, and any other value passes through unchanged. The placeholder is never empty. |
| Decoders.DecodeTokenised | emstanza/emstanza.py:118-197 | `wsafter` is set on every token. The output has one block per sentence, and each block is the rows for that sentence's tokens in token order. |
| Decoders.Block | emstanza/emstanza.py:135 | A block is its tab-joined lines, each followed by a newline, and then one more newline. |
| Decoders.Lines | emstanza/emstanza.py:135 | There is one tab-joined line per row; RowReadsBack shows each line splits back into its row. |
| Decoders.BlockEnding | emstanza/emstanza.py:135 | A block of at least one row ends with `"\n\n"`. |
| Decoders.DecodeSentenceRows | emstanza/emstanza.py:129-134 | Given the stored `wsafter` values, the row loop builds exactly the specified rows of the sentence, one per token in token order. |
| Decoders.SentenceRows | emstanza/emstanza.py:129-134 | One row per token of the sentence; TokenRow and DecodeSentenceRows give each row's nine fields. |
| Decoders.TokenRow | emstanza/emstanza.py:133-134 | A token whose stored `wsafter` is the reconstructed value gives the specified row. |
| Decoders.RowReadsBack | emstanza/emstanza.py:133-135 | If the fields themselves hold no tab, splitting a block line at tabs gives back its row. The `wsafter` field never holds one. |
| Decoders.StanzaFields | emstanza/emstanza.py:114 | The appended fields are three. `deprel` is copied, and `id` and `head` are written with `str` and read back to the same integers. |
| Decoders.ExtendRows | emstanza/emstanza.py:112-114 | Each row paired by `zip` gains its fields, and every other row is unchanged. |
| Decoders.DecodeParse | emstanza/emstanza.py:105-116 | With no sentences it gives IndexError and the rows are unchanged. Otherwise the first min(#tokens, #rows) rows gain `[str(id), deprel, str(head)]`, the rest are unchanged, and the same array is returned. |
| Xtsv.Cell | emstanza/emstanza.py:99-100 | A field lookup succeeds exactly when the name is indexed and the index lies within the row. A missing name gives KeyError and an index past the row gives IndexError. |
| Xtsv.ZipAppend | emstanza/emstanza.py:112-114 | `line += [...]` over `zip(tokens, sen)` keeps the number of rows; ZipAppendAt gives each row's new contents. |
| Xtsv.ZipAppendAt | emstanzadep/emstanzadep.py:74-76 | Zip-extension keeps the number of rows. Row i becomes row i plus its extra fields when it is paired, and stays as it was when it is not. |
| PyInt.IntToString | emstanza/emstanza.py:134 | `str(int)` is a numeral, and it has no sign exactly when the integer is non-negative. It has no leading zero, with or without a sign, and no `-0`. |
| PyInt.IntToStringRoundTrip | emstanza/emstanza.py:134 | Reading `str(i)` back gives `i`. |
| PyStr.Find | emstanzadep/emstanzadep.py:80 | `find` gives -1 exactly when the character is absent. Otherwise it gives the position of its first occurrence. |
| PyStr.FindFirstAt | emstanzadep/emstanzadep.py:80 | A character at a position it does not occur before is what `find` returns. |
| PyStr.SplitCons | emstanza/emstanza.py:135 | Splitting a separator-free piece, a separator and a rest gives the piece followed by the split of the rest. |
| PyStr.Join | emstanza/emstanza.py:44 | `sep.join(parts)` puts the separator between consecutive parts only; SplitJoin shows that splitting the result again gives the parts back. |
| PyStr.SplitJoin | emstanza/emstanza.py:135 | Joining pieces that hold no separator and splitting again gives the pieces back. |
| EmStanzaDep.LookupConvention | emstanzadep/emstanzadep.py:43-48 | `stanza` selects the stanza conversion and `magyarlanc` the magyarlanc conversion. Anything else gives NotImplementedError with the fixed message. |
| EmStanzaDep.NewEmStanzaDep | emstanzadep/emstanzadep.py:18-48 | An unknown convention fails with NotImplementedError. Otherwise a new adapter records the name and the conversion it selects. |
| EmStanzaDep.EmStanzaDep.constructor | emstanzadep/emstanzadep.py:41-46 | The stored name looks up to the stored conversion. |
| EmStanzaDep.LancDeprel | emstanzadep/emstanzadep.py:80-81 | The rewritten label is never longer than the parser's label. |
| EmStanzaDep.LancDeprelAfterFirstColon | emstanzadep/emstanzadep.py:80-81 | With a `:` in the label, the result is the upper-cased text after the first one. |
| EmStanzaDep.LancDeprelNoColon | emstanzadep/emstanzadep.py:80-81 | Without `:`, the result is the whole label upper-cased. |
| EmStanzaDep.LancFields | emstanzadep/emstanzadep.py:80-81 | Three fields are appended, the middle one the rewritten label. |
| EmStanzaDep.StanzaOutcome | emstanzadep/emstanzadep.py:73-76 | The row count is kept. The conversion fails, with IndexError and the rows unchanged, exactly when the parse has no sentence. |
| EmStanzaDep.SetLastField | emstanzadep/emstanzadep.py:83 | `sen[-1][-1] = '0'` on a non-empty last row: every earlier row, and every earlier field of the last row, is unchanged; the row lengths are kept and the last field becomes the value. |
| EmStanzaDep.OverwriteLastField | emstanzadep/emstanzadep.py:83 | `sen[-1][-1] = '0'` fails with IndexError, rows unchanged, exactly when there is no last row or it is empty. Otherwise only the last row's last field changes, to `0`. |
| EmStanzaDep.ConvertOutcome | emstanzadep/emstanzadep.py:69 | `self.convert(...)` under either convention keeps the number of rows, and the only error it can raise is IndexError. |
| EmStanzaDep.LancOutcome | emstanzadep/emstanzadep.py:78-83 | The row count is kept, and any error is IndexError. |
| EmStanzaDep.LancOutcomeError | emstanzadep/emstanzadep.py:79-83 | `_to_lanc` fails exactly when the parse has no sentence, the sentence has no rows, or its last row is empty and has no parse to extend it. |
| PyStr.Upper | emstanzadep/emstanzadep.py:81 | Upper-casing keeps the length, leaves no lower-case ASCII letter, turns each one into its capital, and keeps every other character. |
| EmStanzaDep.LancAgreesWithStanza | emstanzadep/emstanzadep.py:76-81 | Both conventions append the same `str(id)` and `str(head)`, and those read back to the parse's integers. The magyarlanc label is derived from stanza's. |
| EmStanzaDep.StanzaOutcomeRows | emstanzadep/emstanzadep.py:73-76 | An empty parse gives IndexError with the rows unchanged. Otherwise each paired row gains `[str(id), deprel, str(head)]` and unpaired rows are unchanged. |
| EmStanzaDep.LancOutcomeInnerRow | emstanzadep/emstanzadep.py:79-81 | Every row but the last gains `[str(id), rewritten label, str(head)]` when paired, and is unchanged otherwise. |
| EmStanzaDep.LancOutcomePairedLastRow | emstanzadep/emstanzadep.py:79-83 | A last row paired with a parse gains `[str(id), rewritten label, '0']`, and there is no error. |
| EmStanzaDep.LancOutcomeUnpairedLastRow | emstanzadep/emstanzadep.py:83 | With more rows than parses, the last row's own final field becomes `0`. An empty last row gives IndexError. |
| EmStanzaDep.EmptySentence | emstanzadep/emstanzadep.py:83 | An empty sentence raises IndexError under magyarlanc, and is accepted under stanza. |
| EmStanzaDep.ToStanza | emstanzadep/emstanzadep.py:73-76 | The rows become the stanza outcome of the parse, in place, with its error if any. |
| EmStanzaDep.ToLanc | emstanzadep/emstanzadep.py:78-83 | The rows become the magyarlanc outcome, in place, with its error if any. |
| EmStanzaDep.EmStanzaDep.ProcessSentence | emstanzadep/emstanzadep.py:50-71 | An unreadable row fails before parsing, with the first failing row's error, and the rows are unchanged. Otherwise the rows become the configured conversion's outcome for the parse of the 1-based entries, and the same array is returned when no error is raised. |

## Left out

- The Stanza `Pipeline` and its model loading are not modelled. `EmStanzaDep.__init__` builds the pipeline before it checks the naming convention, so with an unknown convention a model-loading failure would come before NotImplementedError; the model checks the convention only. The pipeline is a total function parameter whose output document is given data. The types follow Stanza's data model, not its implementation.
- Stanza's `Document` class and `to_dict()` are not modelled. The parsed sentence is a sequence of `Word` records.
- A multi-word token's later words are not modelled, since only `token.words[0]` is read. Neither are tuple ids.
- The model requires non-empty sentences and distinct token objects. Stanza builds each token separately, and the source's `sentence.tokens[0]` assumes at least one token.
- The model assumes `upos`, `lemma` and `deprel` are always present strings, as the tagging processors provide them. `xpos` and `feats` may be absent.
- The aliasing of row lists is not modelled. The model does not cover a row object shared by two positions of the caller's sentence, or held elsewhere.
- `EmStanza.process_sentence` is a generator in the source (`yield from`, emstanza/emstanza.py:249); `EmStanzaDep.process_sentence` returns `sen` itself. The model returns the yielded items as a sequence and does not model lazy evaluation.
- PyRepr.Escape: it models `repr(gap).strip("'")` only for the characters whitespace gaps hold. Two cases are not modelled:
  - A gap holding `'`. `repr` then switches to double quotes, or escapes the `'` when a `"` is also present, so `strip("'")` no longer peels the quotes off. A gap holding only `"` stays in single quotes, and EscapeChar matches it.
  - The Unicode non-printable characters above U+00FF, which `repr` writes as `\u`/`\U` escapes.
- PyStr.Upper: it upper-cases ASCII letters only. The full Unicode `str.upper` is not modelled, including its length-changing mappings.
- `prepare_fields` and `process_token` are identity stubs and are not modelled. Neither are the class-level xtsv flags and the `source_fields`/`target_fields` bookkeeping.
- `model_path` is not modelled.
- `EmStanza.process_sentence` defaults `field_names` to `None`. For the `parse` task a call without field names on a non-empty sentence raises TypeError (`None['form']`). With an empty sentence the loop never runs and `Document([[]])` goes to the pipeline; ProcessTaggedSentence always takes a field index, so that TypeError is not modelled.
- The command-line entry points and package re-exports (`__main__.py`, `__init__.py`) are not part of this model.
