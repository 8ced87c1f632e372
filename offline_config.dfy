/** The base `RecognitionConfig` that `main` of the offline transcription
    client builds from the parsed command-line options, before the optional
    blocks (word boosting, diarization, endpointing, custom configuration)
    are added by library calls. */
module OfflineConfig {

  /** The parsed options that the base config reads. */
  datatype AsrArgs = AsrArgs(
    languageCode: string,
    maxAlternatives: int,
    profanityFilter: bool,
    automaticPunctuation: bool,
    noVerbatimTranscripts: bool,
    wordTimeOffsets: bool,
    speakerDiarization: bool)

  /** The base fields of the recognition config. */
  datatype RecognitionConfig = RecognitionConfig(
    languageCode: string,
    maxAlternatives: int,
    profanityFilter: bool,
    enableAutomaticPunctuation: bool,
    verbatimTranscripts: bool,
    enableWordTimeOffsets: bool)

  /** The `riva.client.RecognitionConfig(...)` constructor call of `main`.
      Verbatim transcripts take the opposite polarity of the
      `--no-verbatim-transcripts` flag, and diarization, which needs per-word
      timing, turns word time offsets on by itself. */
  function BaseConfig(args: AsrArgs): (c: RecognitionConfig)
    ensures c.languageCode == args.languageCode
    ensures c.maxAlternatives == args.maxAlternatives
    ensures c.profanityFilter == args.profanityFilter
    ensures c.enableAutomaticPunctuation == args.automaticPunctuation
    ensures c.verbatimTranscripts <==> !args.noVerbatimTranscripts
    ensures c.enableWordTimeOffsets <==> args.wordTimeOffsets || args.speakerDiarization
  {
    RecognitionConfig(
      languageCode := args.languageCode,
      maxAlternatives := args.maxAlternatives,
      profanityFilter := args.profanityFilter,
      enableAutomaticPunctuation := args.automaticPunctuation,
      verbatimTranscripts := !args.noVerbatimTranscripts,
      enableWordTimeOffsets := args.wordTimeOffsets || args.speakerDiarization)
  }

  /** Options that produce `c`: the word-offsets flag carries the offsets
      setting and diarization stays off. Every base config is reachable. */
  function ArgsFor(c: RecognitionConfig): (args: AsrArgs)
    ensures BaseConfig(args) == c
    ensures !args.speakerDiarization
  {
    AsrArgs(
      languageCode := c.languageCode,
      maxAlternatives := c.maxAlternatives,
      profanityFilter := c.profanityFilter,
      automaticPunctuation := c.enableAutomaticPunctuation,
      noVerbatimTranscripts := !c.verbatimTranscripts,
      wordTimeOffsets := c.enableWordTimeOffsets,
      speakerDiarization := false)
  }

  /** Two sets of options give the same base config exactly when they agree
      on everything except how word offsets were asked for: the derivation
      forgets only which of the two flags turned offsets on. */
  lemma SameConfig(a: AsrArgs, b: AsrArgs)
    ensures BaseConfig(a) == BaseConfig(b)
        <==> && a.languageCode == b.languageCode
             && a.maxAlternatives == b.maxAlternatives
             && a.profanityFilter == b.profanityFilter
             && a.automaticPunctuation == b.automaticPunctuation
             && a.noVerbatimTranscripts == b.noVerbatimTranscripts
             && (a.wordTimeOffsets || a.speakerDiarization) == (b.wordTimeOffsets || b.speakerDiarization)
  {
  }

  /** Diarization alone forces word time offsets on. */
  lemma DiarizationForcesWordOffsets(args: AsrArgs)
    requires args.speakerDiarization && !args.wordTimeOffsets
    ensures BaseConfig(args).enableWordTimeOffsets
  {
  }

  /** Toggling `--no-verbatim-transcripts` toggles `verbatim_transcripts`
      and changes nothing else. */
  lemma NoVerbatimToggles(args: AsrArgs)
    ensures var flipped := args.(noVerbatimTranscripts := !args.noVerbatimTranscripts);
      BaseConfig(flipped) == BaseConfig(args).(verbatimTranscripts := !BaseConfig(args).verbatimTranscripts)
  {
  }
}
