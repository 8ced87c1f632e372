/** `print_offline_json` of the offline transcription client: the recognition
    response of the speech service projected onto the dict that is saved as
    JSON. Results hold alternatives, alternatives hold words; every level
    keeps its order and its length, and every copied field is copied as is. */
module OfflineResponse {
  import opened Json

  /** The fields of the service's response that the client reads.
      Confidences and times are of the opaque number type `N`. */
  datatype WordInfo<N> = WordInfo(word: string, startTime: N, endTime: N, confidence: N, speakerTag: int)
  datatype Alternative<N> = Alternative(transcript: string, confidence: N, words: seq<WordInfo<N>>)
  datatype RecognitionResult<N> = RecognitionResult(alternatives: seq<Alternative<N>>)
  datatype RecognizeResponse<N> = RecognizeResponse(results: seq<RecognitionResult<N>>)

  // The dict literals of print_offline_json, innermost first.

  function WordToDict<N>(w: WordInfo<N>): Json<N>
  {
    JObject([
      ("word", JString(w.word)),
      ("start_time", JNum(w.startTime)),
      ("end_time", JNum(w.endTime)),
      ("confidence", JNum(w.confidence)),
      ("speaker_tag", JInt(w.speakerTag))
    ])
  }

  function AlternativeToDict<N>(a: Alternative<N>): Json<N>
  {
    JObject([
      ("transcript", JString(a.transcript)),
      ("confidence", JNum(a.confidence)),
      ("words", JArray(seq(|a.words|, i requires 0 <= i < |a.words| => WordToDict(a.words[i]))))
    ])
  }

  function ResultToDict<N>(r: RecognitionResult<N>): Json<N>
  {
    JObject([
      ("alternatives", JArray(seq(|r.alternatives|, i requires 0 <= i < |r.alternatives| => AlternativeToDict(r.alternatives[i]))))
    ])
  }

  /** `response_dict` */
  function ResponseToDict<N>(response: RecognizeResponse<N>): Json<N>
  {
    JObject([
      ("results", JArray(seq(|response.results|, i requires 0 <= i < |response.results| => ResultToDict(response.results[i]))))
    ])
  }

  /** What is written to disk: the document and the file it goes to. */
  datatype SavedFile<N> = SavedFile(path: string, document: Json<N>)

  /** The whole of `print_offline_json`: the dict is always built, and it is
      saved only when an output file is given (a `pathlib.Path` is always
      truthy, so `if output_file:` tests only that one was passed). The saved
      document holds the response without loss. */
  function PrintOfflineJson<N>(response: RecognizeResponse<N>, outputFile: Option<string>): (saved: Option<SavedFile<N>>)
    ensures saved.Some? <==> outputFile.Some?
    ensures saved.Some? ==> saved.value.path == outputFile.value
    ensures saved.Some? ==> DecodeResponse(saved.value.document) == Some(response)
  {
    match outputFile
    case None => None
    case Some(path) =>
      ResponseDecodes(ResponseToDict(response), response);
      Some(SavedFile(path, ResponseToDict(response)))
  }

  // Reading a document back. Each decoder accepts exactly the dicts of the
  // matching level: the keys the client writes, in the order it writes them,
  // with values of the right kind.

  function DecodeWord<N>(j: Json<N>): Option<WordInfo<N>>
  {
    if j.JObject? && |j.members| == 5 then
      match (MemberAt(j, 0, "word"), MemberAt(j, 1, "start_time"), MemberAt(j, 2, "end_time"),
             MemberAt(j, 3, "confidence"), MemberAt(j, 4, "speaker_tag"))
      case (Some(JString(w)), Some(JNum(s)), Some(JNum(e)), Some(JNum(c)), Some(JInt(t))) =>
        Some(WordInfo(w, s, e, c, t))
      case _ => None
    else None
  }

  function DecodeAlternative<N>(j: Json<N>): Option<Alternative<N>>
  {
    if j.JObject? && |j.members| == 3 then
      match (MemberAt(j, 0, "transcript"), MemberAt(j, 1, "confidence"), MemberAt(j, 2, "words"))
      case (Some(JString(t)), Some(JNum(c)), Some(JArray(ws))) =>
        (match Traverse(ws, DecodeWord)
         case Some(words) => Some(Alternative(t, c, words))
         case None => None)
      case _ => None
    else None
  }

  function DecodeResult<N>(j: Json<N>): Option<RecognitionResult<N>>
  {
    if j.JObject? && |j.members| == 1 then
      match MemberAt(j, 0, "alternatives")
      case Some(JArray(alts)) =>
        (match Traverse(alts, DecodeAlternative)
         case Some(alternatives) => Some(RecognitionResult(alternatives))
         case None => None)
      case _ => None
    else None
  }

  function DecodeResponse<N>(j: Json<N>): Option<RecognizeResponse<N>>
  {
    if j.JObject? && |j.members| == 1 then
      match MemberAt(j, 0, "results")
      case Some(JArray(rs)) =>
        (match Traverse(rs, DecodeResult)
         case Some(results) => Some(RecognizeResponse(results))
         case None => None)
      case _ => None
    else None
  }

  lemma WordDecodes<N>(j: Json<N>, w: WordInfo<N>)
    ensures DecodeWord(j) == Some(w) <==> j == WordToDict(w)
  {
  }

  lemma AlternativeDecodes<N>(j: Json<N>, a: Alternative<N>)
    ensures DecodeAlternative(j) == Some(a) <==> j == AlternativeToDict(a)
  {
    forall j': Json<N>, w: WordInfo<N> ensures DecodeWord(j') == Some(w) <==> j' == WordToDict(w) {
      WordDecodes(j', w);
    }
    if j.JObject? && |j.members| == 3 && MemberAt(j, 2, "words").Some? && MemberAt(j, 2, "words").value.JArray? {
      TraverseInverse(WordToDict, DecodeWord, MemberAt(j, 2, "words").value.items, a.words);
    }
    if DecodeAlternative(j) == Some(a) {
      var ws := MemberAt(j, 2, "words").value.items;
      assert Traverse(ws, DecodeWord) == Some(a.words);
      assert ws == AlternativeToDict(a).members[2].1.items;
      assert j.members == AlternativeToDict(a).members;
    }
  }

  lemma ResultDecodes<N>(j: Json<N>, r: RecognitionResult<N>)
    ensures DecodeResult(j) == Some(r) <==> j == ResultToDict(r)
  {
    forall j': Json<N>, a: Alternative<N> ensures DecodeAlternative(j') == Some(a) <==> j' == AlternativeToDict(a) {
      AlternativeDecodes(j', a);
    }
    if j.JObject? && |j.members| == 1 && MemberAt(j, 0, "alternatives").Some? && MemberAt(j, 0, "alternatives").value.JArray? {
      TraverseInverse(AlternativeToDict, DecodeAlternative, MemberAt(j, 0, "alternatives").value.items, r.alternatives);
    }
    if DecodeResult(j) == Some(r) {
      var alts := MemberAt(j, 0, "alternatives").value.items;
      assert Traverse(alts, DecodeAlternative) == Some(r.alternatives);
      assert alts == ResultToDict(r).members[0].1.items;
      assert j.members == ResultToDict(r).members;
    }
  }

  /** The saved document is lossless, and it is the only document that reads
      back as `response`. */
  lemma ResponseDecodes<N>(j: Json<N>, response: RecognizeResponse<N>)
    ensures DecodeResponse(j) == Some(response) <==> j == ResponseToDict(response)
  {
    forall j': Json<N>, r: RecognitionResult<N> ensures DecodeResult(j') == Some(r) <==> j' == ResultToDict(r) {
      ResultDecodes(j', r);
    }
    if j.JObject? && |j.members| == 1 && MemberAt(j, 0, "results").Some? && MemberAt(j, 0, "results").value.JArray? {
      TraverseInverse(ResultToDict, DecodeResult, MemberAt(j, 0, "results").value.items, response.results);
    }
    if DecodeResponse(j) == Some(response) {
      var rs := MemberAt(j, 0, "results").value.items;
      assert Traverse(rs, DecodeResult) == Some(response.results);
      assert rs == ResponseToDict(response).members[0].1.items;
      assert j.members == ResponseToDict(response).members;
    }
  }

  /** Different responses are never saved as the same document. */
  lemma ResponseToDictInjective<N>(a: RecognizeResponse<N>, b: RecognizeResponse<N>)
    ensures ResponseToDict(a) == ResponseToDict(b) ==> a == b
  {
    ResponseDecodes(ResponseToDict(a), a);
    ResponseDecodes(ResponseToDict(a), b);
  }

  // Where things are in a saved document: `doc["results"][i]`,
  // `doc["results"][i]["alternatives"][j]` and
  // `doc["results"][i]["alternatives"][j]["words"][k]`.

  function ResultPath(i: nat): seq<Step>
  {
    [Key("results"), Index(i)]
  }

  function AlternativePath(i: nat, j: nat): seq<Step>
  {
    ResultPath(i) + [Key("alternatives"), Index(j)]
  }

  function WordPath(i: nat, j: nat, k: nat): seq<Step>
  {
    AlternativePath(i, j) + [Key("words"), Index(k)]
  }

  lemma ResultAt<N>(response: RecognizeResponse<N>, i: nat)
    requires i < |response.results|
    ensures At(ResponseToDict(response), ResultPath(i)) == Some(ResultToDict(response.results[i]))
  {
    var doc := ResponseToDict(response);
    AtAppend(doc, [Key("results")], [Index(i)]);
  }

  lemma AlternativeAt<N>(response: RecognizeResponse<N>, i: nat, j: nat)
    requires i < |response.results| && j < |response.results[i].alternatives|
    ensures At(ResponseToDict(response), AlternativePath(i, j))
         == Some(AlternativeToDict(response.results[i].alternatives[j]))
  {
    var doc := ResponseToDict(response);
    ResultAt(response, i);
    AtAppend(doc, ResultPath(i), [Key("alternatives"), Index(j)]);
    AtAppend(ResultToDict(response.results[i]), [Key("alternatives")], [Index(j)]);
  }

  lemma WordAt<N>(response: RecognizeResponse<N>, i: nat, j: nat, k: nat)
    requires i < |response.results| && j < |response.results[i].alternatives|
    requires k < |response.results[i].alternatives[j].words|
    ensures At(ResponseToDict(response), WordPath(i, j, k))
         == Some(WordToDict(response.results[i].alternatives[j].words[k]))
  {
    var doc := ResponseToDict(response);
    var alt := response.results[i].alternatives[j];
    AlternativeAt(response, i, j);
    AtAppend(doc, AlternativePath(i, j), [Key("words"), Index(k)]);
    LookupAt(AlternativeToDict(alt).members, 2);
    AtAppend(AlternativeToDict(alt), [Key("words")], [Index(k)]);
  }

  /** `doc["results"]` is always there and has one entry per result of the response. */
  lemma ResultsCount<N>(response: RecognizeResponse<N>)
    ensures ArrayLength(At(ResponseToDict(response), [Key("results")])) == |response.results|
  {
  }

  /** `doc["results"][i]["alternatives"]` is always there and has one entry
      per alternative of result `i`. */
  lemma AlternativesCount<N>(response: RecognizeResponse<N>, i: nat)
    requires i < |response.results|
    ensures ArrayLength(At(ResponseToDict(response), ResultPath(i) + [Key("alternatives")]))
         == |response.results[i].alternatives|
  {
    ResultAt(response, i);
    AtAppend(ResponseToDict(response), ResultPath(i), [Key("alternatives")]);
  }

  /** The `j`-th alternative of result `i` carries that alternative's
      transcript and confidence unchanged. */
  lemma AlternativeFields<N>(response: RecognizeResponse<N>, i: nat, j: nat)
    requires i < |response.results| && j < |response.results[i].alternatives|
    ensures var alt := response.results[i].alternatives[j];
      && At(ResponseToDict(response), AlternativePath(i, j) + [Key("transcript")]) == Some(JString(alt.transcript))
      && At(ResponseToDict(response), AlternativePath(i, j) + [Key("confidence")]) == Some(JNum(alt.confidence))
  {
    var doc := ResponseToDict(response);
    AlternativeAt(response, i, j);
    LookupAt(AlternativeToDict(response.results[i].alternatives[j]).members, 1);
    AtAppend(doc, AlternativePath(i, j), [Key("transcript")]);
    AtAppend(doc, AlternativePath(i, j), [Key("confidence")]);
  }

  /** `...["alternatives"][j]["words"]` is always there and has one entry per word. */
  lemma WordsCount<N>(response: RecognizeResponse<N>, i: nat, j: nat)
    requires i < |response.results| && j < |response.results[i].alternatives|
    ensures ArrayLength(At(ResponseToDict(response), AlternativePath(i, j) + [Key("words")]))
         == |response.results[i].alternatives[j].words|
  {
    AlternativeAt(response, i, j);
    LookupAt(AlternativeToDict(response.results[i].alternatives[j]).members, 2);
    AtAppend(ResponseToDict(response), AlternativePath(i, j), [Key("words")]);
  }

  /** Word `k` of that alternative carries the word's text under `"word"`
      and its times, confidence and speaker tag, all unchanged. */
  lemma WordFields<N>(response: RecognizeResponse<N>, i: nat, j: nat, k: nat)
    requires i < |response.results| && j < |response.results[i].alternatives|
    requires k < |response.results[i].alternatives[j].words|
    ensures var w := response.results[i].alternatives[j].words[k];
      var doc := ResponseToDict(response);
      && At(doc, WordPath(i, j, k) + [Key("word")]) == Some(JString(w.word))
      && At(doc, WordPath(i, j, k) + [Key("start_time")]) == Some(JNum(w.startTime))
      && At(doc, WordPath(i, j, k) + [Key("end_time")]) == Some(JNum(w.endTime))
      && At(doc, WordPath(i, j, k) + [Key("confidence")]) == Some(JNum(w.confidence))
      && At(doc, WordPath(i, j, k) + [Key("speaker_tag")]) == Some(JInt(w.speakerTag))
  {
    var doc := ResponseToDict(response);
    var members := WordToDict(response.results[i].alternatives[j].words[k]).members;
    WordAt(response, i, j, k);
    LookupAt(members, 1);
    LookupAt(members, 2);
    LookupAt(members, 3);
    LookupAt(members, 4);
    AtAppend(doc, WordPath(i, j, k), [Key("word")]);
    AtAppend(doc, WordPath(i, j, k), [Key("start_time")]);
    AtAppend(doc, WordPath(i, j, k), [Key("end_time")]);
    AtAppend(doc, WordPath(i, j, k), [Key("confidence")]);
    AtAppend(doc, WordPath(i, j, k), [Key("speaker_tag")]);
  }

  /** A response without results is saved as `{"results": []}`. */
  lemma EmptyResponse<N>(response: RecognizeResponse<N>)
    requires response.results == []
    ensures ResponseToDict(response) == JObject([("results", JArray([]))])
  {
    assert ResponseToDict(response).members[0].1.items == [];
  }
}
