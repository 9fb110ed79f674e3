/** The `EmStanza` adapter: a fixed table of tasks, each choosing the
    pipeline's processors, an encoder and a decoder, and the per-sentence
    driver that encodes, runs the pipeline and decodes. The pipeline is
    a function parameter standing for the external NLP model. */
module EmStanza {
  import opened PyStr
  import opened Xtsv
  import opened StanzaDoc
  import opened Encoders
  import opened Decoders

  datatype Task = Tok | TokPos | TokLem | TokParse | Parse

  /** The keys of `available_tasks`, in the order they are listed. */
  const AvailableTasks: seq<string> := ["tok", "tok-pos", "tok-lem", "tok-parse", "parse"]

  function TaskName(t: Task): string {
    match t
    case Tok => "tok"
    case TokPos => "tok-pos"
    case TokLem => "tok-lem"
    case TokParse => "tok-parse"
    case Parse => "parse"
  }

  /** `available_tasks.get(task, None)`. */
  function LookupTask(name: string): (r: Option<Task>)
    ensures r.Some? <==> name in AvailableTasks
    ensures r.Some? ==> TaskName(r.value) == name
  {
    if name == "tok" then Some(Tok)
    else if name == "tok-pos" then Some(TokPos)
    else if name == "tok-lem" then Some(TokLem)
    else if name == "tok-parse" then Some(TokParse)
    else if name == "parse" then Some(Parse)
    else None
  }

  /** Every task is registered under its own name, and under no other. */
  lemma TaskNameRoundTrip(t: Task)
    ensures TaskName(t) in AvailableTasks && LookupTask(TaskName(t)) == Some(t)
  {
  }

  /** Which encoder a task uses. */
  datatype Encoder = JoinLines | PreTagged

  /** Which decoder a task uses. */
  datatype Decoder = Tokenising(kind: TokenisingDecoder) | ParseDecoder

  /** What `_setup_*` configures: the pipeline's processors, whether its
      parser input is pre-tagged, and the encoder/decoder pair. */
  datatype Setup = Setup(processors: string, depparsePretagged: bool, encoder: Encoder, decoder: Decoder)

  function SetupOf(t: Task): (r: Setup)
    ensures r.encoder == PreTagged <==> t == Parse
    ensures r.decoder == ParseDecoder <==> t == Parse
    ensures r.depparsePretagged <==> t == Parse
    ensures t != Parse ==> Width(r.decoder.kind) == match t
      case Tok => 2 case TokPos => 5 case TokLem => 6 case TokParse => 9 case Parse => 0
  {
    match t
    case Tok => Setup("tokenize", false, JoinLines, Tokenising(DecodeTok))
    case TokPos => Setup("tokenize,pos", false, JoinLines, Tokenising(DecodeTokPos))
    case TokLem => Setup("tokenize,pos,lemma", false, JoinLines, Tokenising(DecodeTokLem))
    case TokParse => Setup("tokenize,pos,lemma,depparse", false, JoinLines, Tokenising(DecodeTokParse))
    case Parse => Setup("depparse", true, PreTagged, ParseDecoder)
  }

  /** No two tasks share a decoder or a processor list, so the table
      configures each task differently. */
  lemma SetupDispatch(t: Task)
    ensures forall u :: SetupOf(u).decoder == SetupOf(t).decoder ==> u == t
    ensures forall u :: SetupOf(u).processors == SetupOf(t).processors ==> u == t
  {
  }

  /** The message of the ValueError for an unknown task. */
  function UnknownTaskMessage(): (r: string)
    ensures StartsWith(r, "No proper task is specified. The available tasks are ")
  {
    "No proper task is specified. The available tasks are " + Join(" or ", AvailableTasks)
  }

  lemma UnknownTaskMessageText()
    ensures UnknownTaskMessage() ==
      "No proper task is specified. The available tasks are " +
      "tok" + " or " + "tok-pos" + " or " + "tok-lem" + " or " + "tok-parse" + " or " + "parse"
  {
    var names := AvailableTasks;
    var n1, n2, n3, n4 := names[1..], names[1..][1..], names[1..][1..][1..], names[1..][1..][1..][1..];
    assert n4 == ["parse"] && Join(" or ", n4) == "parse";
    assert n3 == ["tok-parse", "parse"] && Join(" or ", n3) == "tok-parse" + " or " + "parse";
    assert n2 == ["tok-lem", "tok-parse", "parse"] && Join(" or ", n2) == "tok-lem" + " or " + Join(" or ", n3);
    assert n1[0] == "tok-pos" && Join(" or ", n1) == "tok-pos" + " or " + Join(" or ", n2);
    assert Join(" or ", names) == "tok" + " or " + Join(" or ", n1);
  }

  class EmStanza {
    const task: string
    const processors: string
    const depparsePretagged: bool
    const encodeSentence: Encoder
    const decodeSentence: Decoder

    /** The fields hold what the registry configures for `task`. */
    ghost predicate Valid()
      reads this
    {
      LookupTask(task).Some? &&
      SetupOf(LookupTask(task).value) == Setup(processors, depparsePretagged, encodeSentence, decodeSentence)
    }

    /** `__init__` for a registered task: `_setup_*` assigns the fields. */
    constructor (t: Task)
      ensures Valid() && task == TaskName(t)
      ensures Setup(processors, depparsePretagged, encodeSentence, decodeSentence) == SetupOf(t)
    {
      var setup := SetupOf(t);
      processors := setup.processors;
      depparsePretagged := setup.depparsePretagged;
      encodeSentence := setup.encoder;
      decodeSentence := setup.decoder;
      task := TaskName(t);
    }

    /** `process_sentence` for the tokenising tasks: the raw lines are
        joined without comments, the pipeline tokenises them, and the
        decoder writes one block per sentence. */
    method ProcessRawSentence(lines: seq<string>, pipeline: string -> Document) returns (out: seq<string>)
      requires Valid() && encodeSentence == JoinLines
      requires WellFormed(pipeline(JoinLinesIgnoreHashmark(lines)))
      requires DistinctTokens(pipeline(JoinLinesIgnoreHashmark(lines)))
      modifies Tokens(pipeline(JoinLinesIgnoreHashmark(lines)))
      ensures var doc := pipeline(JoinLinesIgnoreHashmark(lines));
        && |out| == |doc.sentences|
        && forall k :: 0 <= k < |doc.sentences| ==> out[k] == Block(SentenceRows(doc, k, decodeSentence.kind))
    {
      var encodedDoc := JoinLinesIgnoreHashmark(lines);
      var processedDoc := pipeline(encodedDoc);
      out := DecodeTokenised(processedDoc, decodeSentence.kind);
    }

    /** `process_sentence` for the `parse` task: the rows are encoded as a
        pre-tagged sentence, parsed, and extended in place; the rows are
        then yielded. An unreadable row fails before the pipeline runs. */
    method ProcessTaggedSentence(sen: array<Row>, fieldNames: FieldNames, pipeline: seq<seq<Entry>> -> Document)
      returns (r: Result<seq<Row>>)
      requires Valid() && encodeSentence == PreTagged
      modifies sen
      ensures !AllReadable(old(sen[..]), fieldNames) ==> r.Err? && sen[..] == old(sen[..])
      ensures !AllReadable(old(sen[..]), fieldNames) ==>
        exists j :: (0 <= j < sen.Length && EntryOf(j + 1, old(sen[j]), fieldNames) == Err(r.error) &&
                     forall m :: 0 <= m < j ==> Readable(old(sen[m]), fieldNames))
      ensures AllReadable(old(sen[..]), fieldNames) ==>
        var doc := pipeline([ParseEntries(old(sen[..]), fieldNames)]);
        && (|doc.sentences| == 0 ==> r == Err(IndexError) && sen[..] == old(sen[..]))
        && (|doc.sentences| > 0 ==>
              sen[..] == ZipAppend(old(sen[..]), TokenFields(doc.sentences[0].tokens)) && r == Ok(sen[..]))
    {
      assert decodeSentence == ParseDecoder;
      var encodedDoc := EncodeParse(sen[..], fieldNames);
      if encodedDoc.Err? {
        return Err(encodedDoc.error);
      }
      var processedDoc := pipeline(encodedDoc.value);
      var decodedSen := DecodeParse(processedDoc, sen);
      if decodedSen.Err? {
        return Err(decodedSen.error);
      }
      return Ok(decodedSen.value[..]);
    }
  }

  /** `EmStanza(task)`: a registered task configures a new adapter; any
      other name raises ValueError listing the tasks joined by " or ". */
  method NewEmStanza(task: string) returns (r: Result<EmStanza>)
    ensures r.Err? <==> task !in AvailableTasks
    ensures r.Err? ==> r.error == ValueError(UnknownTaskMessage())
    ensures r.Ok? ==> fresh(r.value) && r.value.Valid() && r.value.task == task
  {
    var setupFun := LookupTask(task);
    if setupFun.None? {
      return Err(ValueError(UnknownTaskMessage()));
    }
    var adapter := new EmStanza(setupFun.value);
    return Ok(adapter);
  }
}
