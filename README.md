# TextToAnki core, modelled in Dafny

TextToAnki turns a text into vocabulary for flash cards. This project models its core
and proves properties about that model.

- **Lemma lookup.** A `Lexicon` holds a reverse map from word forms to their lemmas,
  plus an optional "known" list read from a CSV file. `find` returns a form's lemmas
  that are not known.
- **Text analysis.** A `TextAnalyzer` splits a text into sentences and each sentence
  into runs of word characters, lower-casing the first token of every sentence. It looks
  up the lemmas of each token that has no digit, and counts tokens and lemmas.
- **Transcripts to SubRip.** Lines like `MM:SS - text` become numbered SubRip blocks.
  Each entry ends where the next raw line starts, or two seconds after its own start.
- **Offline map tools.** These collect each lemma's forms into a forward map, invert a
  forward map into a reverse map, and split a map by the case of its keys' first
  character.

Modules:

- `Common` (`common.dfy`) holds what the Python code takes from its runtime:
  - `str.strip`, `str.split`, `str.join` and `str(int)`;
  - `list(set)`, whose order is left open;
  - the `ValueError`/`IndexError` results;
  - a `TextLib` record of abstract library behaviour: Unicode case mapping and character
    classes, `\w`, and `nltk.sent_tokenize`.
- `TtaGrammar` (`tta_grammar.dfy`) models `text_to_anki/tta_grammar.py`.
  - `Lexicon` is an immutable datatype with `Find`. `Load` builds it, with the module
    flag `FILTER_KNOWN` passed in as a parameter.
  - `TextAnalyzer` is a class whose constant fields are set by its constructor, as in
    `__init__`. `Tokenize`, `GetLemmas` and `Count` are the loops, each proved against
    a specification function (`Tokenized`, `LemmaBag`, the multiset of the input).
- `TranscriptSrt` (`transcript_srt.dfy`) models `text_to_anki/transcript_srt.py`.
  - `ParseTranscript` and `ConvertToSrt` are the loops, proved equal to the functions
    `Parse` and `Srt`.
  - `strptime`/`strftime` with `"%M:%S"` are modelled on seconds past the hour.
  - An invalid time (minutes or seconds of 60 or more) gives `Err(ValueError)`, as the
    Python raises.
- `JsonMaker` (`json_maker.dfy`) models the accumulation loop of `lemma_forms_parser`
  and `reverse_json_writer`, from `temp_tools/json_maker.py`.
- `Splitter` (`splitter.dfy`) models `split_json`. `temp_tools/splitter.py` and
  `temp_tools/json_maker.py` define it with the same body, so it is modelled once.

Two points about `find` and the lexicon:

- `find` returns a plain set of lemmas. A form without an entry gives the empty set, the
  same as a form whose lemmas are all known (`FindEmptyIff`).
- `Lexicon` takes file paths and reads a fixed reverse map and known file.

Behaviours that follow from the code as written are proved, not corrected:

- The two-second fallback end time wraps at the hour: `59:59` ends at `00:01`
  (`EndTimeWrapsAtHour`).
- A transcript whose fallback start time has minutes or seconds of 60 or more fails as
  a whole.
- A map with an empty-string key makes `split_json` fail with `IndexError`.

## Model

| member | source | states |
|---|---|---|
| Common.Strip | text_to_anki/tta_grammar.py:34 | `str.strip()`: the result is a slice of the input with only white space around it, and it neither starts nor ends with white space |
| Common.StripUnique | text_to_anki/transcript_srt.py:11 | any string with the strip property is the strip, so `Strip` is the only function meeting that description |
| Common.Join | text_to_anki/transcript_srt.py:72 | `"\n".join(srt_lines)`: empty for no parts; otherwise it starts with the first part and its length is the parts' total length plus one separator between each two parts |
| Common.Split | text_to_anki/transcript_srt.py:11 | `str.split('\n')`: at least one part, no part holds the separator, and joining the parts with it gives the input back |
| Common.SplitOfJoin | text_to_anki/transcript_srt.py:72 | splitting a join of separator-free parts gives the parts back (inverse of `Split`) |
| Common.DecimalString | text_to_anki/transcript_srt.py:68 | `str(i + 1)`: non-empty, all decimal digits, and no leading zero except for 0 itself |
| Common.DecimalRoundTrip | text_to_anki/transcript_srt.py:68 | reading the decimal string back as a number gives the number |
| Common.SetToSeq | temp_tools/json_maker.py:49 | `list(lemmas)`: every element of the set exactly once, in some order |
| Common.PrefixBefore | text_to_anki/tta_grammar.py:34 | the part of a line before a separator: a separator-free prefix, ending at the first separator or at the end of the line (`split(',')[0]` of a known-file line, and the reach of `.+` in a transcript line) |
| Common.SplitFirst | text_to_anki/tta_grammar.py:34 | the first part of `str.split(c)` is the prefix before the first `c` |
| TtaGrammar.KnownEntry | text_to_anki/tta_grammar.py:34 | `line.split(',')[0].strip()` is the strip of the part of the line before its first comma |
| TtaGrammar.KnownList | text_to_anki/tta_grammar.py:34-35 | one known entry per line of the known file: the strip of the line's first comma field |
| TtaGrammar.Load | text_to_anki/tta_grammar.py:28-37 | the lexicon keeps the reverse map; the known list is read from the known file only when filtering is on, and is empty otherwise |
| TtaGrammar.Lexicon.Find | text_to_anki/tta_grammar.py:49-51 | a lemma is found for a form exactly when the form has an entry, the entry lists the lemma, and the lemma is not known |
| TtaGrammar.FindMissing | text_to_anki/tta_grammar.py:50 | a form without an entry gives the empty set: no marker and no error |
| TtaGrammar.FindEmptyIff | text_to_anki/tta_grammar.py:49-51 | `find` is empty exactly when the form has no entry or every lemma in its entry is known |
| TtaGrammar.FindUnfiltered | text_to_anki/tta_grammar.py:36-37 | with filtering off, `find` gives every lemma of the entry |
| TtaGrammar.FindAtMostEntry | text_to_anki/tta_grammar.py:50-51 | `find` never gives more lemmas than the entry lists, because repeats collapse in the set |
| TtaGrammar.Words | text_to_anki/tta_grammar.py:67 | `RegexpTokenizer(r'\w+').tokenize`: every token is a non-empty run of word characters (`WordsAreRuns`, `WordsOfRun` and `WordsSeparated` pin the maximal runs) |
| TtaGrammar.WordsAreRuns | text_to_anki/tta_grammar.py:67 | every token is a non-empty run of word characters, and the tokens joined are exactly the word characters of the sentence, in order |
| TtaGrammar.WordsOfRun | text_to_anki/tta_grammar.py:67 | a sentence made only of word characters is a single token |
| TtaGrammar.WordsSeparated | text_to_anki/tta_grammar.py:67 | a non-word character separates tokens: the tokens of `a + [c] + b` are those of `a` followed by those of `b` |
| TtaGrammar.Decapitalize | text_to_anki/tta_grammar.py:68-69 | a sentence keeps its number of tokens; the first is lower-cased and the others are unchanged |
| TtaGrammar.Tokenize | text_to_anki/tta_grammar.py:63-71 | the tokens are the concatenation, sentence by sentence, of each sentence's word runs with the first one lower-cased |
| TtaGrammar.TokenizedAppend | text_to_anki/tta_grammar.py:66-70 | sentences are tokenized independently, and their tokens are concatenated in sentence order |
| TtaGrammar.TokenizedSentence | text_to_anki/tta_grammar.py:66-70 | one sentence contributes its own tokens at its place in the order |
| TtaGrammar.TokenizedWordless | text_to_anki/tta_grammar.py:66-70 | a sentence without word characters contributes no token |
| TtaGrammar.HasDigit | text_to_anki/tta_grammar.py:76 | `any(char.isdigit() for char in token)`: the left-to-right scan finds a digit exactly when some character of the token is a digit |
| TtaGrammar.GetLemmas | text_to_anki/tta_grammar.py:73-80 | the lemmas, as a bag, are the union over the digit-free tokens of `find(lower(token))` |
| TtaGrammar.Count | text_to_anki/tta_grammar.py:59 | `Counter(xs)`: the keys are exactly the elements of the input, each mapped to its number of occurrences |
| TtaGrammar.LemmaBagAppend | text_to_anki/tta_grammar.py:75-79 | the lemma bag of two consecutive token lists is the union of their bags |
| TtaGrammar.DigitTokenIgnored | text_to_anki/tta_grammar.py:76-77 | a token with a digit contributes no lemma, wherever it stands |
| TtaGrammar.LemmaCountIsHits | text_to_anki/tta_grammar.py:61 | the count of a lemma is the number of digit-free tokens whose lower-cased form has that lemma |
| TtaGrammar.LemmaTotal | text_to_anki/tta_grammar.py:78-79 | the total number of lemmas is the sum, over digit-free tokens, of the sizes of their found sets |
| TtaGrammar.TextAnalyzer.constructor | text_to_anki/tta_grammar.py:56-61 | the analyzer keeps the text, its tokens, the token counts, the lemma bag, and lemma counts equal to the per-lemma token hits |
| TranscriptSrt.Lines | text_to_anki/transcript_srt.py:11 | `transcript.strip().split('\n')`: at least one line, no line holds a newline, and the lines joined with newlines give the stripped transcript |
| TranscriptSrt.MatchesForm | text_to_anki/transcript_srt.py:15 | `re.match(r"(\d{2}:\d{2}) - (.+)", line)` (and the same pattern at line 34) succeeds exactly when the line is a `\d{2}:\d{2}` stamp, ` - ` and a non-empty rest that does not start with a newline |
| TranscriptSrt.LineText | text_to_anki/transcript_srt.py:15-18 | `group(2)`: the non-empty rest of the line after `MM:SS - `, without a newline |
| TranscriptSrt.StrpTime | text_to_anki/transcript_srt.py:42 | `strptime(t, "%M:%S")` succeeds exactly when minutes and seconds are both below 60, giving 60·M+S seconds, under an hour |
| TranscriptSrt.StrfTime | text_to_anki/transcript_srt.py:44 | `strftime("%M:%S")` of a time under an hour gives a two-digit `MM:SS` stamp |
| TranscriptSrt.TimeRoundTrip | text_to_anki/transcript_srt.py:42-44 | formatting a time and reading it back gives the same time |
| TranscriptSrt.StampRoundTrip | text_to_anki/transcript_srt.py:42-44 | reading a valid stamp and formatting it again gives the same stamp |
| TranscriptSrt.EndTime | text_to_anki/transcript_srt.py:23-46 | the next raw line's timestamp if that line matches; otherwise a stamp two seconds after the start, wrapping at the hour, or strptime's `ValueError` |
| TranscriptSrt.EndTimeWrapsAtHour | text_to_anki/transcript_srt.py:41-44 | the fallback after `59:59` is `00:01` |
| TranscriptSrt.ParsedPrefix | text_to_anki/transcript_srt.py:13-20 | the loop over the first n lines produces at most one entry per line |
| TranscriptSrt.ParsedPrefixErrorSticks | text_to_anki/transcript_srt.py:19 | once `calculate_end_time` raises, the later lines do not change the outcome |
| TranscriptSrt.ParseLines | text_to_anki/transcript_srt.py:13-20 | the loop's result, line by line, is the parse of all the lines, or the first `ValueError` |
| TranscriptSrt.ParseTranscript | text_to_anki/transcript_srt.py:4-21 | the result is the parse of the stripped, newline-split transcript, or the first `ValueError` |
| TranscriptSrt.Kept | text_to_anki/transcript_srt.py:15-16 | the indices of the matching lines: all of them, each once, in increasing order |
| TranscriptSrt.ParseFollowsKept | text_to_anki/transcript_srt.py:15-20 | there is one entry per matching line, in order: start and text come from that line, and the end is `calculate_end_time`'s for it |
| TranscriptSrt.ParseOkIff | text_to_anki/transcript_srt.py:19 | parsing succeeds exactly when `calculate_end_time` succeeds for every matching line |
| TranscriptSrt.FormatTimeSrt | text_to_anki/transcript_srt.py:48-56 | `MM:SS` becomes `00:MM:SS,000` exactly when it is a valid time; otherwise `ValueError` |
| TranscriptSrt.SrtLinesErrorSticks | text_to_anki/transcript_srt.py:69 | once one block's time formatting raises, later entries do not change the outcome |
| TranscriptSrt.SrtBlock | text_to_anki/transcript_srt.py:67-71 | an entry's block exists exactly when both its times are valid, and is its number, its timing line, its text and an empty line |
| TranscriptSrt.BuildSrtLines | text_to_anki/transcript_srt.py:66-71 | the loop's result, entry by entry, is the SubRip lines of all the entries, or the first `ValueError` |
| TranscriptSrt.ConvertToSrt | text_to_anki/transcript_srt.py:58-72 | the result is the SubRip text of the parsed entries, or the first `ValueError` |
| TranscriptSrt.SrtLinesShape | text_to_anki/transcript_srt.py:67-71 | each entry gives exactly four lines: its 1-based number, `00:MM:SS,000 --> 00:MM:SS,000`, its text, and an empty line |
| TranscriptSrt.SrtLinesOkIff | text_to_anki/transcript_srt.py:69 | the conversion fails exactly when some entry's start or end is not a valid time |
| TranscriptSrt.SrtOfNoEntries | text_to_anki/transcript_srt.py:72 | a transcript without timestamped lines converts to the empty string |
| TranscriptSrt.SrtOutputLines | text_to_anki/transcript_srt.py:72 | splitting the output at newlines gives back exactly the SRT lines (the join loses nothing) |
| JsonMaker.CollectForms | temp_tools/json_maker.py:26-29 | a lemma is a key exactly when it has forms, and its list is its forms in encounter order, with repeats kept |
| JsonMaker.FormsOfMembers | temp_tools/json_maker.py:21-29 | a lemma gets forms exactly when some pair names it, and its forms are exactly those paired with it |
| JsonMaker.FormsOfElems | temp_tools/json_maker.py:26-29 | a form is in a lemma's list exactly when the pair (lemma, form) was read |
| JsonMaker.FormsOfAppend | temp_tools/json_maker.py:16-29 | reading the pairs in two batches (two XML files) gives each lemma the first batch's forms followed by the second's |
| JsonMaker.LemmasByForm | temp_tools/json_maker.py:39-45 | each listed form is mapped to the set of lemmas that list it, and nothing else is a key |
| JsonMaker.ReverseJsonWriter | temp_tools/json_maker.py:35-49 | the keys are exactly the listed forms; a lemma is in a form's list exactly when the lemma lists the form; each list is non-empty and repeat-free |
| JsonMaker.ReverseTwice | temp_tools/json_maker.py:39-49 | inverting the reverse map again gives each lemma that has forms the set of its forms |
| JsonMaker.ReverseOfCollected | temp_tools/json_maker.py:26-49 | collecting then inverting maps a form to a lemma exactly when the pair (lemma, form) was read |
| Splitter.UpperKeys | temp_tools/splitter.py:8 | the entries whose key starts with an upper-case character, values unchanged |
| Splitter.LowerKeys | temp_tools/splitter.py:9 | the entries whose key starts with a lower-case character, values unchanged |
| Splitter.SplitJson | temp_tools/splitter.py:8-9 | `IndexError` exactly when a key is empty; otherwise the upper-case part and the lower-case part, values unchanged (the copy in `temp_tools/json_maker.py`, lines 60-61, has the same body) |
| Splitter.SplitPartition | temp_tools/splitter.py:8-9 | the two parts share no key, together they are no larger than the input, and keys with an uncased first character are dropped |
| Splitter.SplitIdempotent | temp_tools/json_maker.py:60-61 | splitting a part again gives the same part |

## Left out

- The Tk user interface, speech transcription (`whisper.py`) and the dictionary
  extractor (`dpd_extractor.py`) are not part of this model.
- File and console I/O are left out. The model starts from the data the files hold:
  - the reverse map and the known file's lines for `Lexicon`;
  - the `(lemma, form)` pairs the XML entries yield, in order, for `lemma_forms_parser`;
  - the loaded map for `reverse_json_writer` and `split_json`.
  - JSON formatting (`json.dump` with indentation) and the output files are not modelled.
  - `lemma_forms_parser` writes its result to the last XML path it read, so it
    overwrites an input file. With no XML file it fails on an unbound name. Both are
    file handling and not modelled.
  - `splitter.py` calls `split_json('')` when imported; that file access is not modelled.
- The `RETURN_KNOWN_VARIANTS` printout only prints, so it is left out.
- `FILTER_KNOWN` is the `filterKnown` parameter of `Load`.
- XML parsing (`ElementTree`, `.text.strip()` of each element) is left out. The
  accumulation loop receives the pairs directly.
- Library behaviour is abstract, given by the `TextLib` record:
  - `nltk.sent_tokenize`;
  - Unicode `lower`, `isdigit`, `isupper`, `islower`;
  - the `\w` class of `RegexpTokenizer(r'\w+')`;
  - the white space `str.strip` removes.

  Properties that depend on those libraries' internals (for example that lower-casing
  preserves length) are not claimed.
- TranscriptSrt.IsDigit: the `\d` of the timestamp pattern is read as an ASCII digit.
  Python's `\d` also matches other Unicode decimal digits, which `strptime` would then
  reject or read differently; those lines are not modelled.
- TranscriptSrt.StrpTime: only the two-digit `MM:SS` form that the regular expression
  captures is modelled. `strptime` also accepts one-digit fields, but no caller passes them.
- Python's `datetime` defaults the year to 1900, and only minutes and seconds are kept.
  The model works on seconds past the hour, which is all `"%M:%S"` reads and writes.
- Common.SetToSeq, TtaGrammar.GetLemmas and JsonMaker.ReverseJsonWriter leave the
  order of a set's elements open, as Python does. `GetLemmas` is therefore stated as a
  bag (multiset), and each reverse list as a repeat-free list with the right elements.
- The iteration order of dictionary keys (insertion order in Python) is not modelled.
  Only the resulting maps are stated.
- The `Lexicon`'s `standard_path` argument is used only by the printout and is not
  modelled.
