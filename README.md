# Offline transcription client: response projection and base config

A Dafny model of the two pieces of logic in the offline speech-recognition
client `scripts/asr/transcribe_file_offline.py`:

- `print_offline_json`, which turns the service's recognition response into
  a plain dict (results → alternatives → words) and saves that dict as JSON
  when an output file is given;
- the base `RecognitionConfig` that `main` builds from the parsed options.

Both are pure apart from the file write, which the model returns as a value, so the model is datatypes, functions and lemmas.

Files:

- `json.dfy` (module `Json`): JSON-shaped values. An object is an ordered
  list of members, since a Python dict keeps its insertion order. `At`
  follows a path of keys and indices, as in `doc["results"][i]`. `Traverse`
  maps a decoder over a list, with its lemmas.
- `offline_response.dfy` (module `OfflineResponse`): the response fields the
  client reads, the dict literals of `print_offline_json`, and
  `PrintOfflineJson` itself. It also has decoders that read a document back
  and accept nothing else. The decoders are this model's own reference
  definition of the output schema. They are not code of the client.
- `offline_config.dfy` (module `OfflineConfig`): the options and the base
  config fields, with `BaseConfig` for the constructor call in `main`.

Confidences, start and end times are values of a type parameter `N`. The
client only copies them, so no floating-point reasoning is needed. The
speaker tag is an integer and is saved as a JSON integer.

## Model

| member | source | states |
|---|---|---|
| `OfflineResponse.WordToDict` | scripts/asr/transcribe_file_offline.py:40-46 | the word dict literal; it has no contract of its own, and its meaning is stated by `WordDecodes`, `WordAt` and `WordFields` |
| `OfflineResponse.AlternativeToDict` | scripts/asr/transcribe_file_offline.py:36-49 | the alternative dict literal with its `words` comprehension; its meaning is stated by `AlternativeDecodes`, `AlternativeAt`, `AlternativeFields` and `WordsCount` |
| `OfflineResponse.ResultToDict` | scripts/asr/transcribe_file_offline.py:34-52 | the result dict literal with its `alternatives` comprehension; its meaning is stated by `ResultDecodes`, `ResultAt` and `AlternativesCount` |
| `OfflineResponse.ResponseToDict` | scripts/asr/transcribe_file_offline.py:32-55 | `response_dict` with its `results` comprehension; its meaning is stated by `ResponseDecodes`, `ResponseToDictInjective`, `ResultsCount`, `ResultAt` and `EmptyResponse` |
| `OfflineResponse.ResultAt` | scripts/asr/transcribe_file_offline.py:32-54 | `doc["results"][i]` is the dict of result `i` of the response: the results keep their order |
| `OfflineResponse.AlternativeAt` | scripts/asr/transcribe_file_offline.py:35-51 | `doc["results"][i]["alternatives"][j]` is the dict of alternative `j` of result `i`: the alternatives keep their order |
| `OfflineResponse.WordAt` | scripts/asr/transcribe_file_offline.py:39-48 | `...["alternatives"][j]["words"][k]` is the dict of word `k` of that alternative: the words keep their order |
| `OfflineResponse.PrintOfflineJson` | scripts/asr/transcribe_file_offline.py:27-59 | a document is saved exactly when an output file is given, to that file, and the saved document decodes back to the response |
| `OfflineResponse.ResponseDecodes` | scripts/asr/transcribe_file_offline.py:32-55 | a document decodes to a response exactly when it is that response's dict: the projection is lossless and is the only document that reads back as the response |
| `OfflineResponse.ResultDecodes` | scripts/asr/transcribe_file_offline.py:34-52 | a result dict is exactly `{"alternatives": [...]}` with one decodable entry per alternative, in order |
| `OfflineResponse.AlternativeDecodes` | scripts/asr/transcribe_file_offline.py:36-49 | an alternative dict is exactly `transcript`, `confidence`, `words`, in that order, with one decodable entry per word |
| `OfflineResponse.WordDecodes` | scripts/asr/transcribe_file_offline.py:40-46 | a word dict is exactly `word`, `start_time`, `end_time`, `confidence`, `speaker_tag`, in that order, holding the word's fields |
| `OfflineResponse.ResponseToDictInjective` | scripts/asr/transcribe_file_offline.py:32-55 | two different responses never give the same dict |
| `OfflineResponse.ResultsCount` | scripts/asr/transcribe_file_offline.py:32-54 | `doc["results"]` is always a list, with as many entries as the response has results (an empty list for none); their order is proved by `ResultAt` |
| `OfflineResponse.AlternativesCount` | scripts/asr/transcribe_file_offline.py:35-51 | `doc["results"][i]["alternatives"]` is always a list, with as many entries as result `i` has alternatives |
| `OfflineResponse.AlternativeFields` | scripts/asr/transcribe_file_offline.py:37-38 | entry `j` of the alternatives of result `i` has the transcript and confidence of alternative `j` of result `i`, unchanged (order is kept) |
| `OfflineResponse.WordsCount` | scripts/asr/transcribe_file_offline.py:39-48 | the `words` list of each alternative is always there, with as many entries as the alternative has words |
| `OfflineResponse.WordFields` | scripts/asr/transcribe_file_offline.py:40-46 | entry `k` of that `words` list has `word` equal to `word.word`, and `start_time`, `end_time`, `confidence` and `speaker_tag` equal to the fields of word `k`, unchanged |
| `OfflineResponse.EmptyResponse` | scripts/asr/transcribe_file_offline.py:32-55 | a response with no results gives `{"results": []}`, never a missing key |
| `OfflineConfig.BaseConfig` | scripts/asr/transcribe_file_offline.py:65-72 | language code, max alternatives and profanity filter are copied, punctuation is taken from `automatic_punctuation`, `verbatim_transcripts` is the negation of `no_verbatim_transcripts`, and word time offsets are on if and only if the word-offsets flag or diarization is set |
| `OfflineConfig.ArgsFor` | scripts/asr/transcribe_file_offline.py:65-72 | every base config is produced by some options, with diarization off |
| `OfflineConfig.SameConfig` | scripts/asr/transcribe_file_offline.py:65-72 | two sets of options give the same base config if and only if they agree on all copied fields and on the OR of the two offset flags |
| `OfflineConfig.DiarizationForcesWordOffsets` | scripts/asr/transcribe_file_offline.py:71 | diarization without the word-offsets flag still turns word time offsets on |
| `OfflineConfig.NoVerbatimToggles` | scripts/asr/transcribe_file_offline.py:70 | flipping `no_verbatim_transcripts` flips `verbatim_transcripts` and changes no other field |

## Left out

- Argument parsing (`parse_args` and the helpers of `riva.client.argparse_utils`). These are command-line plumbing over a library that is not part of this model. The options come in as an `AsrArgs` value.
- Authentication, `ASRService`, the `offline_recognize` remote call and the printing of `grpc.RpcError` details (lines 63-64, 90-94). These are network client code. The response is a parameter of `PrintOfflineJson`.
- Reading the audio file and writing the JSON file with `json.dump(indent=4, ensure_ascii=False)` (lines 57-59, 88-89). These are I/O and a library serialiser. `PrintOfflineJson` returns the document and the target path instead of writing, which captures only that saving depends on `output_file`.
- `add_word_boosting_to_config`, `add_speaker_diarization_to_config`, `add_endpoint_parameters_to_config` and `add_custom_configuration_to_config` (lines 73-87). They live in `riva.client`, which is not part of this model, so their attach rules and defaults are unknown. The model covers only the base fields of the config.
- Protobuf range checks on `max_alternatives` and on the speaker tag (both 32-bit integers in the service's messages). The protobuf library is not part of this model, so integers are unbounded. They are only copied, so no wrap-around arises in the client's own code.
- Response fields the client does not read. Only the fields used at lines 37-45 are modelled.
- Floating-point behaviour of confidences and times. They are only copied, so they are opaque.
- `scripts/nlp/ner_client.py`. Its span reduction is a call into a library that is not part of this model (line 42), and the rest prints one of three lists.

Behaviour one might expect of this client that its code does not have, and that the model does not have either:

- The client does not reject an empty language code. It passes the value through, and `BaseConfig` does the same.
- The client prints nothing on success, although the docstring of `print_offline_json` says "Print the response". When no output file is given, the dict is built and then dropped.
- Span merging and tie-breaking, alignment errors and endpointing sentinels are not in this client's code. They live in `riva.client` and `riva_api`, which are not part of this model.
