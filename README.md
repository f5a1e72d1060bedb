# Voice kiosk core: chunk coalescer and dialogue state machine

This project models the two sequential cores of the kiosk program in
`device/app.py` and proves properties about them in Dafny.

- **The recording stream** (`microphone_stream.dfy`, module `Microphone`).
  `MicrophoneStream` is a class that holds the capture buffer. The buffer is a
  FIFO of audio chunks, plus the `None` sentinel that `__exit__` puts.
  - The capture callback `_fill_buffer` is the method `FillBuffer`.
  - One resumption of the Python generator `generator()` is the method `Next`. It does
    a blocking get, then a drain with non-blocking gets, and then yields the joined
    batch. It returns on the sentinel. The datatype `Resumption` is what one
    resumption produces: a yielded batch, a wait, or the end.
  - The generator's suspension point is the field `phase`. It is one of: before the
    `while not self.closed` test, inside the blocking get, or finished.
  - A blocking get on an empty buffer is the result `Blocked`. It changes nothing:
    the consumer waits there until the producer puts something.
  - Ghost fields keep the books. They record every item ever put, the chunks of every
    yielded batch, the chunks dropped at the sentinel, and the bytes sent.
  - `Next` is proved against the pure function `Resume`. Lemmas about `Resume` then
    state what a resumption promises.
- **The dialogue loop** (`listening_loop.dfy`, module `Listening`).
  - `Step` is a pure function. It takes the state `activated` and one recognition
    response. It returns the new state, the effects, and whether the loop breaks.
  - There are five effects: GPIO pin 17 high or low (the white LED), pin 18 high or
    low (the red LED), and `Speak(answer)`.
  - `Run` folds `Step` over a sequence of responses.
  - `ListeningLoop` is the imperative `for` loop with its `continue`s and `break`. It
    is proved equal to `Run`. Its inner question loop `AnswerQuestion` is proved equal
    to the first-match function `Answer`.
  - The fuzzy score `fuzz.ratio` is a parameter: a total function with values in 0..100.
  - The question/answer dict is a sequence of pairs in iteration order. The lemmas
    about answers assume its keys are distinct.

Four behaviours of the code are easy to miss. The model follows the code in each:

- **A sentinel met during the drain.** The comment at line 78 says the drain
  consumes "whatever other data's still buffered". But lines 81-83 return as soon as
  the drain meets the sentinel. The chunks already collected into `data` are never
  yielded.
- **A close while the generator waits at its `yield`.** The comment at lines 70-72
  says the generator stops when it gets the `None` that marks the end of the stream.
  But the next resumption tests `closed` at line 69 first, and stops without taking
  anything more from the buffer. Chunks still queued, and the sentinel, stay there.
- **No chunk is lost: only a weaker form holds.** Because of the two points above,
  not every chunk put reaches a yielded batch. The model proves that what was sent is
  always a prefix of the bytes of everything put, in order and without duplication
  (`SentIsPrefix`). The examples `CloseAfterYield` and `CloseDuringDrain` show the
  chunks that are discarded.
- **An empty final transcript is not skipped.** Line 144 skips a result only when it
  has no alternatives. A final result whose transcript is `""` goes through lines
  163-190. While activated, it turns pin 17 low, is matched against the table, and
  clears `activated` (`EmptyTranscript`).

## Model

| member | source | states |
|---|---|---|
| Microphone.MicrophoneStream.constructor | device/app.py:28-34 | a new stream has an empty buffer, `closed` set and the generator before its loop test |
| Microphone.MicrophoneStream.Enter | device/app.py:50 | opening clears `closed` and changes nothing else |
| Microphone.MicrophoneStream.FillBuffer | device/app.py:63-66 | the callback appends exactly one chunk to the end of the buffer and of the record of puts; the producer discipline is kept |
| Microphone.MicrophoneStream.Exit | device/app.py:54-61 | closing sets `closed` and appends exactly one sentinel, which is the last item ever put |
| Microphone.MicrophoneStream.Next | device/app.py:68-88 | one resumption of the generator produces exactly what `Resume` describes; the chunks it yields are appended to the yielded chunks, the chunks it drops at a sentinel to the dropped ones, and the sentinel is booked when taken; it keeps the books (puts = yielded + dropped + sentinel + buffer) and adds exactly the yielded data to what was sent |
| Microphone.MicrophoneStream.Take | device/app.py:73-76 | the blocking get waits on an empty buffer, ends the generator on a sentinel, and otherwise starts a batch, as `Get` describes |
| Microphone.MicrophoneStream.Batch | device/app.py:76-88 | after the first chunk, the drain and its outcome match the greedy get of `Get` |
| Microphone.MicrophoneStream.Drain | device/app.py:79-86 | the inner loop removes a run of chunks from the front of the buffer, in order, and stops either with the buffer empty or right after removing a sentinel |
| Microphone.MicrophoneStream.Settle | device/app.py:82-88 | the drain's outcome: a stop if it met the sentinel, otherwise a yield of the batch |
| Microphone.MicrophoneStream.DropBatch | device/app.py:82-83 | a sentinel met in the drain ends the generator; the chunks taken are booked as dropped and nothing is sent |
| Microphone.MicrophoneStream.YieldBatch | device/app.py:88 | a yielded batch is the join of the chunks taken, is booked as yielded, and is appended to what was sent |
| Microphone.MicrophoneStream.SentIsPrefix | device/app.py:73-88 | what was sent is a prefix of the bytes of everything put, so batches come out in FIFO order with nothing duplicated |
| Microphone.Get | device/app.py:73-86 | the blocking get and the drain, run on a buffer: block when it is empty; otherwise take up to the first sentinel, which ends the generator and drops the chunks taken; or take the whole buffer and yield the join of its chunks |
| Microphone.Resume | device/app.py:68-88 | one resumption from a suspension point: a finished generator, or one that finds `closed` at the loop test, stops and takes nothing; otherwise it does `Get` |
| Microphone.ResumeSpec | device/app.py:68-88 | a resumption removes a prefix of the buffer and keeps the rest in order; a yield takes at least one chunk, only chunks, leaves the buffer empty, and its data is their join; it stops exactly when already finished, when `closed` is seen at the loop test, or when a sentinel is in the buffer; it blocks exactly on an empty buffer and then changes nothing |
| Microphone.StopIsFinal | device/app.py:74-75 | once a resumption stops, every later resumption stops without touching the buffer |
| Microphone.DrainOutcome | device/app.py:79-86 | a drain after a first chunk gives the greedy get: up to the first sentinel, which drops the batch, or the whole buffer, whose bytes are yielded |
| Microphone.FirstSentinel | device/app.py:74-83 | the index found is the first sentinel, or the length when there is none |
| Microphone.BytesAppend | device/app.py:88 | the bytes of a concatenation are the concatenation of the bytes |
| Microphone.BytesPrefix | device/app.py:88 | the bytes of a sequence of chunks are a prefix of the bytes of any extension of it |
| Microphone.TwoChunks | device/app.py:76-88 | two queued chunks come out as one batch holding their concatenation |
| Microphone.ChunkThenSentinel | device/app.py:81-83 | a chunk followed by the sentinel ends the generator, and the chunk is dropped |
| Microphone.CloseAfterYield | device/app.py:69 | after a batch is yielded, a chunk put before the close is never yielded: the next resumption finds `closed` |
| Microphone.CloseDuringDrain | device/app.py:73-83 | a waiting generator that is given a chunk and then the sentinel yields nothing and then keeps stopping |
| Listening.Lower | device/app.py:174 | `transcript.lower()`, on ASCII letters, one character at a time |
| Listening.LowerAppend | device/app.py:174 | lower-casing a concatenation lower-cases each part |
| Listening.Contains | device/app.py:174 | the substring test `ACTIVATION_WORD in ...`: the word occurs at some position |
| Listening.ActivationWordAnywhere | device/app.py:174 | the speaker's name in any case, anywhere in the utterance and even inside a longer word, is found by the activation test |
| Listening.HasExitWord | device/app.py:169 | `re.search(r'\b(exit|quit)\b', transcript, re.I)`: at some position, four characters that lower-case to `exit` or `quit`, with a non-word character or the edge of the text on each side |
| Listening.ExitWordInUtterance | device/app.py:169 | a standalone `exit` or `quit`, in any case, anywhere in an utterance ends the loop |
| Listening.ExitWordIgnoresCase | device/app.py:169 | lower-casing the transcript first changes nothing about whether the exit word is found |
| Listening.FinalTranscript | device/app.py:137-157 | the transcript acted on is that of the first alternative of the first result, and only when there is a result, it has an alternative, and it is final |
| Listening.Answer | device/app.py:181-189 | answering an utterance: for the first matching question, pin 18 high, its answer spoken, pin 18 low; nothing if no question matches |
| Listening.Run | device/app.py:134-192 | the loop over the responses, from `activated = False`: each response is handled by `Step` until one breaks the loop, after which nothing is read |
| Listening.EmptyTranscript | device/app.py:144-190 | a final result with an empty transcript is handled, not skipped: while activated it turns pin 17 low, is matched and ends idle; while idle it changes nothing |
| Listening.FirstMatch | device/app.py:181-189 | the index returned is the first question whose score reaches 70; none is returned exactly when no question reaches it |
| Listening.AsMap | device/app.py:185 | every question of the table is a key of the dict, and every key is a question of the table |
| Listening.AsMapLookup | device/app.py:185 | with distinct keys, looking a question up gives its own answer |
| Listening.AnswerIsFirstMatch | device/app.py:181-189 | at most one answer is spoken, namely that of the first question in iteration order that reaches 70, even if a later one scores higher; nothing is said when none reaches it |
| Listening.AnswerQuestion | device/app.py:181-189 | the question loop with its `break` emits exactly the effects of `Answer` |
| Listening.Step | device/app.py:136-192 | a response with no result, no alternative or no final result changes nothing; the loop breaks exactly on an exit word, from either state, with no effect; while idle, the activation word is the only way to activate, and its only effect is pin 17 high; while activated, a final utterance sets pin 17 low, may be answered, and always returns to idle |
| Listening.RunAfterStop | device/app.py:169-171 | after the break no later response is read: more responses change nothing |
| Listening.RunStopsAtFirstExit | device/app.py:136-171 | the loop breaks exactly when some response is an exit, and then the last response it read is the first exit; otherwise it reads every response |
| Listening.RunKeepsPanel | device/app.py:174-190 | starting from both LEDs off, the effects switch pin 17 only between opposite levels, light pin 18 only while pin 17 is low, and speak once per lighting of pin 18, which is then turned off; pin 17 is high exactly while `activated` holds |
| Listening.AnswerKeepsPanel | device/app.py:184-188 | an answer lights the red LED, speaks once and turns the LED off |
| Listening.ListeningLoop | device/app.py:119-192 | the imperative loop computes exactly `Run` on the responses |
| Listening.ExitWordExamples | device/app.py:169 | "EXIT" and "quit" match in any case at word boundaries; "exits" and "Quito" do not match |
| Listening.ExitBeforeActivation | device/app.py:169-177 | "simba exit" ends the loop and does not activate |
| Listening.ActivationOnly | device/app.py:174-177 | "Hi Simba" activates in any case; its only effect is pin 17 high, and the utterance is not answered |
| Listening.ThresholdExamples | device/app.py:182-189 | a score of exactly 70 is a match and the first matching question wins; a score of 69 everywhere gets no answer |
| Listening.AnsweredExample | device/app.py:179-190 | an activated kiosk answers a matching question with pin 17 low, pin 18 high, the answer, pin 18 low, and becomes idle |
| Listening.SessionExample | device/app.py:134-192 | a session of activation, question, "quit" and one more utterance yields exactly those effects, and the last response is never read |

## Left out

- Enter: keeps only the effect `closed := false` of `__enter__`, and requires a stream that has never been filled. PyAudio's device opening (lines 36-52) and the device calls in `__exit__` are hardware I/O.
- The capture callback's thread is not modelled, nor the locking inside `queue.Queue`. The buffer is an ordinary sequence, used from one thread at a time.
- A blocking get is not a real wait. It is the result `Blocked`, which a next `Next` call resumes. That call models the consumer being woken by a later put.
- FillBuffer: requires `closed` unset. In the code the callback can already run while `closed` is still set, because PyAudio's `open` (line 38) starts the stream before line 50 clears `closed`. The model moves such puts to just after `Enter`. No consumer can tell the difference, because the generator exists only after `__enter__` returns.
- Exit: requires `closed` unset, the model's form of "`__exit__` follows `__enter__`".
- SentIsPrefix: states only that what was sent is a prefix of the bytes put. The whole-stream promise of no loss does not hold for the code, because batches are dropped as `CloseAfterYield` and `CloseDuringDrain` show.
- `rate`, `chunk`, `frame_count`, `time_info`, `status_flags` and the callback's return value `paContinue` are kept only as constants or not at all, because nothing in the core depends on them.
- `fuzz.ratio` is an arbitrary total function into 0..100, because its algorithm lives in a library that is not part of this model.
- Python's `re` engine is re-expressed for `\b(exit|quit)\b` under `re.I`, on ASCII only. Unicode word characters and Unicode case folding (for example the dotless `ı` matching `i`) are not modelled.
- `Lower` lower-cases ASCII letters only. Python's `str.lower` also maps other letters, and it can change the length of a string.
- Failures of the speech synthesis or playback calls (lines 186-187) are not modelled. Such an exception ends the program with pin 18 still high. `RunKeepsPanel` assumes that these calls return.
- Speech synthesis and playback (`get_answer_audio`, `play_answer_audio`, `output.wav`) are network and audio I/O. They appear only as the effect `Speak(answer)`.
- The GPIO calls appear only as effect values. Pin setup in `main` is hardware set-up; `RunKeepsPanel` starts from the dark panel that `main` leaves.
- The terminal redraw (`num_chars_printed`, `overwrite_chars`, `sys.stdout`, `os.system('clear')`, the `print`s) is display only. `num_chars_printed` influences nothing else.
- `QUESTIONS_ANSWERS_DICT` is loaded from `q_a`, which is not part of this model. It is a parameter.
- The streaming recognizer and `main`'s wiring of the generator into it are network code. The responses are a given sequence.
